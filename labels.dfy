/**
 * Expansion of advertised VLAN label ranges (`TEManager._expand_label` and
 * `TEManager._expand_label_range`): a range is a list of items, each a string
 * `"100-200"` or `"100"`, an integer, or a two-element list `[100, 200]`.
 */
module Labels {
  import opened Wrappers
  import opened Exceptions
  import Strings
  import Numerals

  /** One item of a label range, in the shapes the topology JSON carries. */
  datatype LabelItem =
    | Text(s: string)     // "a-b" or "a"
    | Number(n: int)      // a
    | Items(xs: seq<int>) // [a, b]
    | OtherShape          // anything else (a tuple, a float, null)
  // A JSON boolean is a Python `int`: a parser maps `true` to `Number(1)` and `false` to `Number(0)`.

  /** `list(range(start, stop))`. */
  function Range(start: int, stop: int): (r: seq<int>)
    ensures |r| == if start <= stop then stop - start else 0
    ensures forall k | 0 <= k < |r| :: r[k] == start + k
    decreases stop - start
  {
    if start >= stop then [] else [start] + Range(start + 1, stop)
  }

  /** The half-open bounds `[start, stop)` that `_expand_label` computes before validating them. */
  function Bounds(item: LabelItem): Result<(int, int), PyError> {
    match item
    case Text(s) =>
      var parts := Strings.Split(s, '-');
      (match (Numerals.ParseInt(parts[0]), Numerals.ParseInt(parts[|parts| - 1]))
       case (Some(a), Some(b)) => Ok((a, b + 1))
       case _ => Err(ValueError))
    case Number(n) => Ok((n, n + 1))
    case Items(xs) => if |xs| < 2 then Err(IndexError) else Ok((xs[0], xs[1] + 1))
    case OtherShape => Ok((0, 0))
  }

  /** `_expand_label`: the tags one item stands for, or the exception it raises. */
  function ExpandLabel(item: LabelItem): Result<seq<int>, PyError> {
    match Bounds(item)
    case Err(e) => Err(e)
    case Ok((start, stop)) =>
      if start == 0 || stop == 0 || start > stop then Err(ValidationError)
      else Ok(Range(start, stop))
  }

  /**
   * An integer `n` stands for `[n]` and is refused when it is 0 or -1; a
   * list needs two elements and stands for the tags from the first to the
   * second, refused when the first is 0, the second -1, or the first
   * exceeds the second by more than one (`[b+1, b]` stands for no tags);
   * any other shape is refused; the tags always come out strictly
   * increasing.
   */
  lemma ExpandLabelSpec(item: LabelItem)
    ensures var r := ExpandLabel(item);
      && (item.Number? ==>
            r == (if item.n == 0 || item.n == -1 then Err(ValidationError) else Ok([item.n])))
      && (item.Items? && |item.xs| < 2 ==> r == Err(IndexError))
      && (item.Items? && |item.xs| >= 2 ==>
            r == (if item.xs[0] == 0 || item.xs[1] == -1 || item.xs[0] > item.xs[1] + 1
                  then Err(ValidationError) else Ok(Range(item.xs[0], item.xs[1] + 1))))
      && (item.OtherShape? ==> r == Err(ValidationError))
      && (r.Ok? ==> forall i, j | 0 <= i < j < |r.value| :: r.value[i] < r.value[j])
  {
    assert item.Number? ==> Range(item.n, item.n + 1) == [item.n];
  }

  /** `"a-b"` stands for exactly a..b; it is refused when a is 0 or a > b + 1, and `"a-(a-1)"` is empty. */
  lemma ExpandTextRange(a: nat, b: nat)
    ensures ExpandLabel(Text(Numerals.NatToString(a) + "-" + Numerals.NatToString(b)))
         == if a == 0 || a > b + 1 then Err(ValidationError) else Ok(Range(a, b + 1))
  {
    var sa, sb := Numerals.NatToString(a), Numerals.NatToString(b);
    Numerals.NatToStringHasNo(a, '-');
    Numerals.NatToStringHasNo(b, '-');
    Strings.SplitAfterField(sa, '-', sb);
    Strings.SplitWithoutSep(sb, '-');
    assert sa + "-" + sb == sa + ['-'] + sb;
    Numerals.IntRoundTrip(a);
    Numerals.IntRoundTrip(b);
  }

  /** `"a"` stands for `[a]`, and `"0"` is refused. */
  lemma ExpandTextSingle(a: nat)
    ensures ExpandLabel(Text(Numerals.NatToString(a))) == if a == 0 then Err(ValidationError) else Ok([a])
  {
    Numerals.NatToStringHasNo(a, '-');
    Strings.SplitWithoutSep(Numerals.NatToString(a), '-');
    Numerals.IntRoundTrip(a);
    assert Range(a, a + 1) == [a];
  }

  /** The tags of a range item are the integers between its bounds. */
  lemma ExpandLabelMembers(item: LabelItem, x: int)
    requires ExpandLabel(item).Ok?
    ensures Bounds(item).Ok?
    ensures x in ExpandLabel(item).value <==> Bounds(item).value.0 <= x < Bounds(item).value.1
  {
    var (start, stop) := Bounds(item).value;
    var r := Range(start, stop);
    if start <= x < stop {
      assert r[x - start] == x;
    }
  }

  /**
   * `_expand_label_range`: the expansions of the items, concatenated in
   * order; the first item that raises makes the whole call raise.
   */
  function ExpandLabelRange(items: seq<LabelItem>): Result<seq<int>, PyError>
    decreases |items|
  {
    if |items| == 0 then Ok([])
    else match ExpandLabel(items[0])
      case Err(e) => Err(e)
      case Ok(first) =>
        match ExpandLabelRange(items[1..])
        case Err(e) => Err(e)
        case Ok(tail) => Ok(first + tail)
  }

  /**
   * The expansion succeeds exactly when every item does; it raises what
   * the first failing item raises; and its tags are those of the items.
   */
  lemma {:induction false} ExpandLabelRangeSpec(items: seq<LabelItem>)
    ensures var r := ExpandLabelRange(items);
      && (r.Ok? <==> forall i | 0 <= i < |items| :: ExpandLabel(items[i]).Ok?)
      && (r.Err? ==> exists i | 0 <= i < |items| ::
            && ExpandLabel(items[i]) == Err(r.error)
            && forall j | 0 <= j < i :: ExpandLabel(items[j]).Ok?)
      && (r.Ok? ==> forall x :: x in r.value <==>
            exists i | 0 <= i < |items| :: x in ExpandLabel(items[i]).value)
    decreases |items|
  {
    if |items| > 0 && ExpandLabel(items[0]).Ok? {
      ExpandLabelRangeSpec(items[1..]);
      assert forall i | 1 <= i < |items| :: items[i] == items[1..][i - 1];
      var rest := ExpandLabelRange(items[1..]);
      if rest.Err? {
        var k :| 0 <= k < |items| - 1 && ExpandLabel(items[1..][k]) == Err(rest.error)
          && forall j | 0 <= j < k :: ExpandLabel(items[1..][j]).Ok?;
        assert ExpandLabel(items[k + 1]) == Err(rest.error);
      } else {
        var first := ExpandLabel(items[0]).value;
        forall x
          ensures x in first + rest.value <==> exists i | 0 <= i < |items| :: x in ExpandLabel(items[i]).value
        {
          if x in rest.value {
            var i :| 0 <= i < |items| - 1 && x in ExpandLabel(items[1..][i]).value;
            assert x in ExpandLabel(items[i + 1]).value;
          }
        }
      }
    }
  }

  /**
   * The expansion runs over the items in order: a range split in two
   * expands to the first part's tags followed by the second part's,
   * raising what the first part raises, else what the second raises; and
   * a one-item range expands as its item does.
   */
  lemma {:induction false} ExpandLabelRangeAppend(a: seq<LabelItem>, b: seq<LabelItem>)
    ensures |a| == 1 ==> ExpandLabelRange(a) == ExpandLabel(a[0])
    ensures ExpandLabelRange(a).Err? ==> ExpandLabelRange(a + b) == ExpandLabelRange(a)
    ensures ExpandLabelRange(a).Ok? && ExpandLabelRange(b).Err? ==> ExpandLabelRange(a + b) == ExpandLabelRange(b)
    ensures ExpandLabelRange(a).Ok? && ExpandLabelRange(b).Ok? ==>
      ExpandLabelRange(a + b) == Ok(ExpandLabelRange(a).value + ExpandLabelRange(b).value)
    decreases |a|
  {
    if |a| == 0 {
      assert a + b == b;
      if ExpandLabelRange(b).Ok? {
        assert [] + ExpandLabelRange(b).value == ExpandLabelRange(b).value;
      }
    } else {
      assert (a + b)[0] == a[0] && (a + b)[1..] == a[1..] + b;
      ExpandLabelRangeAppend(a[1..], b);
      if |a| == 1 {
        assert a[1..] == [];
        if ExpandLabel(a[0]).Ok? {
          assert ExpandLabel(a[0]).value + [] == ExpandLabel(a[0]).value;
        }
      }
      var first, rest := ExpandLabel(a[0]), ExpandLabelRange(a[1..]);
      if first.Ok? && rest.Ok? && ExpandLabelRange(b).Ok? {
        assert first.value + (rest.value + ExpandLabelRange(b).value) == (first.value + rest.value) + ExpandLabelRange(b).value;
      }
    }
  }
}
