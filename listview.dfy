/** The list pattern every screen shares: an authoritative list replaced by each fetch,
    a filtered view that keeps order, and a page window that is a slice of the filtered view. */
module ListView {

  datatype Option<T> = None | Some(value: T)

  /** The outcome of a list request: the items, or the HTTP status of the failure. */
  datatype Fetch<T> = Ok(items: seq<T>) | Err(status: int)

  /** Failure statuses the load handlers read as "no records yet": not found, no connection,
      and 500 used by the server as an empty-collection placeholder. */
  predicate IsBenignStatus(status: int) {
    status == 404 || status == 0 || status == 500
  }

  /** What a load handler leaves behind: the list, and whether an error alert was raised. */
  datatype LoadEffect<T> = LoadEffect(items: seq<T>, alert: bool)

  /** The `next`/`error` handlers of a list load with the benign-status branch. */
  function AfterLoad<T>(current: seq<T>, outcome: Fetch<T>): (r: LoadEffect<T>)
    ensures r.alert <==> outcome.Err? && !IsBenignStatus(outcome.status)
    ensures outcome.Ok? ==> r.items == outcome.items
    ensures outcome.Err? && IsBenignStatus(outcome.status) ==> r.items == []
    ensures r.alert ==> r.items == current
  {
    match outcome
    case Ok(items) => LoadEffect(items, false)
    case Err(status) => if IsBenignStatus(status) then LoadEffect([], false) else LoadEffect(current, true)
  }

  // ---------------------------------------------------------------------------
  // Filtering

  /** The elements of `xs` whose flag in `mask` is set, in their original order. */
  function Select<T>(xs: seq<T>, mask: seq<bool>): (r: seq<T>)
    requires |mask| == |xs|
    ensures |r| <= |xs|
    ensures forall x :: x in r ==> x in xs
  {
    if xs == [] then []
    else Select(xs[..|xs| - 1], mask[..|xs| - 1]) + (if mask[|xs| - 1] then [xs[|xs| - 1]] else [])
  }

  /** The positions whose flag in `mask` is set, in increasing order. */
  function Positions(mask: seq<bool>): (pos: seq<nat>)
    ensures forall j :: 0 <= j < |pos| ==> pos[j] < |mask| && mask[pos[j]]
    ensures forall j, k :: 0 <= j < k < |pos| ==> pos[j] < pos[k]
    ensures forall i :: 0 <= i < |mask| && mask[i] ==> i in pos
  {
    if mask == [] then []
    else Positions(mask[..|mask| - 1]) + (if mask[|mask| - 1] then [|mask| - 1] else [])
  }

  /** `Select` keeps exactly the flagged elements, in order: its j-th element is the element
      at the j-th flagged position. */
  lemma {:induction false} SelectIsOrderedSelection<T>(xs: seq<T>, mask: seq<bool>)
    requires |mask| == |xs|
    ensures |Select(xs, mask)| == |Positions(mask)|
    ensures forall j :: 0 <= j < |Positions(mask)| ==> Select(xs, mask)[j] == xs[Positions(mask)[j]]
  {
    if xs != [] {
      var n := |xs| - 1;
      SelectIsOrderedSelection(xs[..n], mask[..n]);
    }
  }

  /** With every flag set, `Select` returns the whole list. */
  lemma {:induction false} SelectAll<T>(xs: seq<T>, mask: seq<bool>)
    requires |mask| == |xs|
    requires forall i :: 0 <= i < |mask| ==> mask[i]
    ensures Select(xs, mask) == xs
  {
    if xs != [] {
      var n := |xs| - 1;
      SelectAll(xs[..n], mask[..n]);
      assert xs[..n] + [xs[n]] == xs;
    }
  }

  /** With no flag set, `Select` returns the empty list. */
  lemma {:induction false} SelectNone<T>(xs: seq<T>, mask: seq<bool>)
    requires |mask| == |xs|
    requires forall i :: 0 <= i < |mask| ==> !mask[i]
    ensures Select(xs, mask) == []
  {
    if xs != [] {
      SelectNone(xs[..|xs| - 1], mask[..|xs| - 1]);
    }
  }

  /** Every flagged element is kept. */
  lemma SelectKeepsFlagged<T>(xs: seq<T>, mask: seq<bool>, i: nat)
    requires |mask| == |xs| && i < |xs| && mask[i]
    ensures xs[i] in Select(xs, mask)
  {
    SelectIsOrderedSelection(xs, mask);
    var pos := Positions(mask);
    var j :| 0 <= j < |pos| && pos[j] == i;
    assert Select(xs, mask)[j] == xs[i];
  }

  /** The flags of `keep` over `xs`. */
  function MaskOf<T>(xs: seq<T>, keep: T -> bool): (m: seq<bool>)
    ensures |m| == |xs| && forall i :: 0 <= i < |xs| ==> m[i] == keep(xs[i])
  {
    seq(|xs|, i requires 0 <= i < |xs| => keep(xs[i]))
  }

  /** `xs.filter(keep)`: the elements that pass, each kept once per occurrence, in their order. */
  function Filter<T>(xs: seq<T>, keep: T -> bool): (r: seq<T>)
    ensures |r| <= |xs|
    ensures forall x :: x in r ==> x in xs && keep(x)
    ensures forall i :: 0 <= i < |xs| && keep(xs[i]) ==> xs[i] in r
    ensures var pos := Positions(MaskOf(xs, keep));
      |r| == |pos| && forall j :: 0 <= j < |pos| ==> r[j] == xs[pos[j]]
  {
    var m := MaskOf(xs, keep);
    var r := Select(xs, m);
    SelectIsOrderedSelection(xs, m);
    forall i | 0 <= i < |xs| && keep(xs[i]) ensures xs[i] in r {
      SelectKeepsFlagged(xs, m, i);
    }
    r
  }

  /** A filter that keeps every element returns the list unchanged. */
  lemma FilterAll<T>(xs: seq<T>, keep: T -> bool)
    requires forall x :: x in xs ==> keep(x)
    ensures Filter(xs, keep) == xs
  {
    SelectAll(xs, MaskOf(xs, keep));
  }

  /** A filter that keeps no element returns the empty list. */
  lemma FilterNone<T>(xs: seq<T>, keep: T -> bool)
    requires forall x :: x in xs ==> !keep(x)
    ensures Filter(xs, keep) == []
  {
    SelectNone(xs, MaskOf(xs, keep));
  }

  // ---------------------------------------------------------------------------
  // Pagination

  /** `Math.ceil(n / k)`: the number of pages of size `k` that hold `n` items. */
  function CeilDiv(n: nat, k: nat): (r: nat)
    requires k > 0
    ensures r * k >= n
    ensures r == 0 || (r - 1) * k < n
    decreases n
  {
    if n == 0 then 0 else if n <= k then 1 else 1 + CeilDiv(n - k, k)
  }

  /** How `Array.prototype.slice` reads an index: negative counts from the end, then clamped. */
  function SliceIndex(i: int, len: nat): (r: nat)
    ensures r <= len
  {
    if i < 0 then (if len + i < 0 then 0 else len + i) else if i > len then len else i
  }

  /** `s.slice(start, end)`: never fails; out-of-range bounds are clamped. */
  function JsSlice<T>(s: seq<T>, start: int, end: int): (r: seq<T>)
    ensures 0 <= start <= end ==> r == s[(if start < |s| then start else |s|)..(if end < |s| then end else |s|)]
    ensures 0 <= end < start ==> r == []
  {
    var from, to := SliceIndex(start, |s|), SliceIndex(end, |s|);
    if from < to then s[from..to] else []
  }

  /** Page `page` (counted from 1) of `s` with `size` items per page:
      `s.slice((page - 1) * size, (page - 1) * size + size)`. */
  function Page<T>(s: seq<T>, page: int, size: nat): (r: seq<T>)
    ensures page >= 1 ==> (page - 1) * size >= 0 && |r| <= size
    ensures page >= 1 && (page - 1) * size >= |s| ==> r == []
    ensures page >= 1 && (page - 1) * size < |s| ==>
      r == s[(page - 1) * size..if (page - 1) * size + size < |s| then (page - 1) * size + size else |s|]
  {
    var start := (page - 1) * size;
    if page < 1 then
      JsSlice(s, start, start + size)
    else
      MulMono(0, page - 1, size);
      SliceWindow(s, start, size);
      JsSlice(s, start, start + size)
  }

  /** A window of `size` items from `start`: at most `size` items, none from past the end. */
  lemma SliceWindow<T>(s: seq<T>, start: nat, size: nat)
    ensures var r := JsSlice(s, start, start + size);
      && |r| <= size
      && (start >= |s| ==> r == [])
      && (start < |s| ==> r == s[start..if start + size < |s| then start + size else |s|])
  {
  }

  /** The arithmetic step between consecutive pages. */
  lemma MulStep(page: int, size: nat)
    ensures page * size == (page - 1) * size + size
    ensures page >= 1 ==> (page - 1) * size >= 0
  {
  }

  /** Multiplying by a page size keeps the order of page numbers. */
  lemma MulMono(a: int, b: int, k: nat)
    requires 0 <= a <= b
    ensures a * k <= b * k
  {
  }

  /** Pages 1..n put one after another. */
  function PagesUpTo<T>(s: seq<T>, size: nat, n: nat): seq<T> {
    if n == 0 then [] else PagesUpTo(s, size, n - 1) + Page(s, n, size)
  }

  /** The first n pages together are the first n * size items (or all of them). */
  lemma {:induction false} PagesUpToIsPrefix<T>(s: seq<T>, size: nat, n: nat)
    requires size > 0
    ensures PagesUpTo(s, size, n) == s[..if n * size < |s| then n * size else |s|]
  {
    if n > 0 {
      PagesUpToIsPrefix(s, size, n - 1);
      MulStep(n, size);
      PrefixThenWindow(s, (n - 1) * size, size);
    }
  }

  /** The first `start` items (or all) followed by the window from `start` are the first
      `start + size` items (or all). */
  lemma PrefixThenWindow<T>(s: seq<T>, start: nat, size: nat)
    ensures var prev := if start < |s| then start else |s|;
      var cur := if start + size < |s| then start + size else |s|;
      s[..prev] + (if start < |s| then s[start..cur] else []) == s[..cur]
  {
  }


  /** Pages 1..CeilDiv(|s|, size), concatenated, rebuild `s` exactly: no gap, no overlap. */
  lemma PagesReconstruct<T>(s: seq<T>, size: nat)
    requires size > 0
    ensures PagesUpTo(s, size, CeilDiv(|s|, size)) == s
  {
    PagesUpToIsPrefix(s, size, CeilDiv(|s|, size));
  }

  /** Every page from 1 to the page count holds at least one item; all but the last are full. */
  lemma PageInRange<T>(s: seq<T>, page: int, size: nat)
    requires size > 0 && 1 <= page <= CeilDiv(|s|, size)
    ensures Page(s, page, size) != []
    ensures page < CeilDiv(|s|, size) ==> |Page(s, page, size)| == size
  {
    var n := CeilDiv(|s|, size);
    MulMono(page - 1, n - 1, size);
    MulStep(page, size);
    if page < n {
      MulMono(page, n - 1, size);
    }
  }

  /** A page is empty exactly when it lies past the page count. */
  lemma PageEmptyIff<T>(s: seq<T>, page: int, size: nat)
    requires size > 0 && page >= 1
    ensures Page(s, page, size) == [] <==> page > CeilDiv(|s|, size)
  {
    if page <= CeilDiv(|s|, size) {
      PageInRange(s, page, size);
    } else {
      PageBeyondCount(s, page, size);
    }
  }

  /** Past the page count every page is empty. */
  lemma PageBeyondCount<T>(s: seq<T>, page: int, size: nat)
    requires size > 0 && page > CeilDiv(|s|, size)
    ensures Page(s, page, size) == []
  {
    var n := CeilDiv(|s|, size);
    MulMono(n, page - 1, size);
  }
}
