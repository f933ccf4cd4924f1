/**
 * The numeric values the GLUE script compares. numpy's float64 is modelled as
 * either a real number or NaN; every ordered or equality comparison that
 * involves NaN is false, exactly as numpy's element-wise operators return.
 * Infinities are not distinguished from very large finite values.
 */
module Float64 {

  datatype Float = NaN | Num(val: real)

  /** numpy `a == b` */
  predicate Eq(a: Float, b: Float) {
    a.Num? && b.Num? && a.val == b.val
  }

  /** numpy `a <= b` */
  predicate Le(a: Float, b: Float) {
    a.Num? && b.Num? && a.val <= b.val
  }

  /** numpy `a >= b` */
  predicate Ge(a: Float, b: Float) {
    a.Num? && b.Num? && a.val >= b.val
  }

  /** numpy `a > b` */
  predicate Gt(a: Float, b: Float) {
    a.Num? && b.Num? && a.val > b.val
  }

  /** numpy `np.isnan(a)` */
  predicate IsNaN(a: Float) {
    a.NaN?
  }
}
