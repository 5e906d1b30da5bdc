// Number data points: values, arithmetic, and the merge of one point into another.
module DataPoints {
  import opened Attributes

  // An int64 in two's complement, whose addition wraps; a float64 by its bit pattern.
  type Int64 = bv64
  type Float64 = bv64

  datatype Number = Empty | Int(i: Int64) | Double(d: Float64)

  // The two float64 operations used, left uninterpreted: no law is assumed of either.
  datatype Floats = Floats(add: (Float64, Float64) -> Float64, ofInt: Int64 -> Float64)

  const FLOAT_ZERO: Float64 := 0

  datatype Exemplar = Exemplar(value: Number, timestamp: nat)

  datatype Point = Point(
    attrs: Attrs,
    value: Number,
    timestamp: nat,
    start: nat,
    exemplars: seq<Exemplar>)

  datatype MetricType = Gauge | Sum | Histogram | ExponentialHistogram | Summary

  // What decides how two points merge.
  datatype Rule = Rule(floats: Floats, metricType: MetricType, isDelta: bool)

  function Plus(a: Int64, b: Int64): Int64 {
    a + b
  }

  lemma PlusAssociates(a: Int64, b: Int64, c: Int64)
    ensures Plus(Plus(a, b), c) == Plus(a, Plus(b, c))
  {
    assert Plus(a, b) == a + b && Plus(b, c) == b + c;
    assert Plus(a + b, c) == Plus(a, b + c) by {
      RawPlusAssociates(a, b, c);
    }
    hide Plus;
  }

  lemma RawPlusAssociates(a: Int64, b: Int64, c: Int64)
    ensures Plus(a + b, c) == Plus(a, b + c)
  {
  }

  lemma PlusCommutes(a: Int64, b: Int64)
    ensures Plus(a, b) == Plus(b, a)
  {
  }

  // `copyNumberValue`: an empty source leaves the destination as it was.
  function CopyNumber(src: Number, dst: Number): Number {
    if src.Empty? then dst else src
  }

  function ToDouble(floats: Floats, n: Number): Float64 {
    match n
    case Int(i) => floats.ofInt(i)
    case Double(d) => d
    case Empty => FLOAT_ZERO
  }

  // `addNumberValue`: mixed and empty values are promoted to double.
  function AddNumber(floats: Floats, src: Number, dst: Number): Number {
    if src.Int? && dst.Int? then Int(Plus(dst.i, src.i))
    else if src.Double? && dst.Double? then Double(floats.add(dst.d, src.d))
    else Double(floats.add(ToDouble(floats, dst), ToDouble(floats, src)))
  }

  // The leader after a colliding point has been merged into it.
  function Merge(rule: Rule, leader: Point, p: Point): Point {
    var moved := leader.(exemplars := leader.exemplars + p.exemplars);
    if rule.metricType == Gauge then
      if p.timestamp > leader.timestamp then
        moved.(value := CopyNumber(p.value, leader.value),
               timestamp := p.timestamp,
               start := if p.start > 0 then p.start else leader.start)
      else moved
    else if rule.metricType == Sum && rule.isDelta then
      moved.(value := AddNumber(rule.floats, p.value, leader.value),
             timestamp := if p.timestamp > leader.timestamp then p.timestamp else leader.timestamp,
             start := if p.start < leader.start then p.start else leader.start)
    else leader
  }

  ghost predicate Merges(rule: Rule) {
    rule.metricType == Gauge || (rule.metricType == Sum && rule.isDelta)
  }
}
