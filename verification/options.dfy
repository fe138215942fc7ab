/** Optional values. In the indicator frame a `None` stands for a floating-point
    NaN: the leading rows of a rolling indicator, or the row that `shift(1)`
    has no predecessor for. */
module Options {

  datatype Option<+T> = None | Some(value: T)
}
