/** Small value types shared by every script model. */
module Common {

  /** Python's `None` / a present value. */
  datatype Option<T> = None | Some(value: T)

  /** A value, or the message of the exception the script would raise. */
  datatype Result<T> = Ok(value: T) | Err(message: string)

  /** A CSV row as `csv.DictReader` yields it, or a spreadsheet row keyed by column letter. */
  type Row = map<string, string>

  /** `row.get(key, '')` */
  function Get(row: Row, key: string): string
  {
    if key in row then row[key] else ""
  }

  function Min(a: int, b: int): int
  {
    if a <= b then a else b
  }

  /** The scripts' progress-report percentage `part * 100 // total if total else 0`. */
  function Percent(part: nat, total: nat): (r: nat)
    ensures total == 0 ==> r == 0
    ensures total > 0 ==> r * total <= part * 100 < (r + 1) * total
    ensures part <= total ==> r <= 100
  {
    if total == 0 then 0 else part * 100 / total
  }

  lemma MulAtLeast(d: nat, t: nat)
    requires d >= 1
    ensures d * t >= t
  {
    if d > 1 {
      MulAtLeast(d - 1, t);
      assert d * t == (d - 1) * t + t;
    }
  }

  lemma MulCancel(x: nat, y: nat, t: nat)
    requires t > 0 && x * t <= y * t
    ensures x <= y
  {
    if x > y {
      var d := x - y;
      assert x * t == y * t + d * t;
      MulAtLeast(d, t);
      assert false;
    }
  }

  lemma MulLess(x: nat, y: nat, t: nat)
    requires x * t < y * t
    ensures x < y
  {
  }

  /** Rounding down twice loses at least as much as rounding the sum down once. */
  lemma PercentOfSum(a: nat, b: nat, total: nat)
    ensures Percent(a, total) + Percent(b, total) <= Percent(a + b, total)
  {
    if total > 0 {
      var pa, pb, ps := Percent(a, total), Percent(b, total), Percent(a + b, total);
      assert (pa + pb) * total == pa * total + pb * total;
      assert (pa + pb) * total <= (a + b) * 100;
      MulLess(pa + pb, ps + 1, total);
    }
  }

  /** Two complementary counts never report more than 100% together. */
  lemma PercentsOfPartition(a: nat, b: nat, total: nat)
    requires a + b == total
    ensures Percent(a, total) + Percent(b, total) <= 100
  {
    if total > 0 {
      var pa, pb := Percent(a, total), Percent(b, total);
      assert (pa + pb) * total == pa * total + pb * total;
      assert a * 100 + b * 100 == total * 100;
      MulCancel(pa + pb, 100, total);
    }
  }
}
