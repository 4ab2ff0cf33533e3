/** The extra request headers of `createRequest`: a list of name/value pairs
    folded, left to right, into a header map with set-or-replace semantics
    (`WebHeaderCollection.Set`). Header names are taken as already
    normalised strings. */
module HeaderOverlay {
  import opened Wrappers

  /** One `KeyValuePair<string, string>` argument. */
  datatype Header = Header(key: string, value: string)

  /** The names mentioned in a header list. */
  function Keys(hs: seq<Header>): set<string>
  {
    set i | 0 <= i < |hs| :: hs[i].key
  }

  /** Entry `i` is the last one in `hs` that mentions its name. */
  predicate IsLast(hs: seq<Header>, i: int)
    requires 0 <= i < |hs|
  {
    forall j :: i < j < |hs| ==> hs[j].key != hs[i].key
  }

  /** Set every header of `hs` into `h`, first to last. Every listed name ends
      up with the value of its last occurrence; every other name keeps its
      prior value or stays absent. */
  function Overlay(h: map<string, string>, hs: seq<Header>): (r: map<string, string>)
    ensures r.Keys == h.Keys + Keys(hs)
    ensures forall i :: 0 <= i < |hs| && IsLast(hs, i) ==> r[hs[i].key] == hs[i].value
    ensures forall k :: k in h && k !in Keys(hs) ==> r[k] == h[k]
    decreases |hs|
  {
    if hs == [] then h
    else
      var h' := h[hs[0].key := hs[0].value];
      var r := Overlay(h', hs[1..]);
      assert Keys(hs) == {hs[0].key} + Keys(hs[1..]) by {
        forall i | 0 <= i < |hs| ensures hs[i].key in {hs[0].key} + Keys(hs[1..]) {
          if i > 0 { assert hs[i] == hs[1..][i - 1]; }
        }
        forall j | 0 <= j < |hs| - 1 ensures hs[1..][j].key in Keys(hs) {
          assert hs[1..][j] == hs[j + 1];
        }
      }
      forall i | 0 <= i < |hs| && IsLast(hs, i) ensures r[hs[i].key] == hs[i].value {
        if i > 0 {
          assert IsLast(hs[1..], i - 1) by {
            forall j | i - 1 < j < |hs| - 1 ensures hs[1..][j].key != hs[1..][i - 1].key {
              assert hs[1..][j] == hs[j + 1];
            }
          }
        }
      }
      r
  }

  /** The headers of a request after the optional list has been applied: a
      null list (`None`) and an empty list both leave `h` as it was. */
  function ApplyHeaders(h: map<string, string>, headers: Option<seq<Header>>): (r: map<string, string>)
    ensures headers == None || headers == Some([]) ==> r == h
    ensures headers.Some? ==> r.Keys == h.Keys + Keys(headers.value)
    ensures headers.Some? ==> forall i :: 0 <= i < |headers.value| && IsLast(headers.value, i) ==>
      r[headers.value[i].key] == headers.value[i].value
    ensures forall k :: k in h && (headers.None? || k !in Keys(headers.value)) ==> r[k] == h[k]
  {
    match headers
    case None => h
    case Some(hs) => Overlay(h, hs)
  }

  /** Applying a list in two pieces is applying the whole list. */
  lemma {:induction false} OverlayAppend(h: map<string, string>, a: seq<Header>, b: seq<Header>)
    ensures Overlay(h, a + b) == Overlay(Overlay(h, a), b)
    decreases |a|
  {
    if a != [] {
      var h' := h[a[0].key := a[0].value];
      assert (a + b)[0] == a[0];
      assert (a + b)[1..] == a[1..] + b;
      assert Overlay(h, a + b) == Overlay(h', a[1..] + b);
      OverlayAppend(h', a[1..], b);
      assert Overlay(h, a) == Overlay(h', a[1..]);
    } else {
      assert a + b == b;
    }
  }

  /** Applying the same list twice is the same as applying it once. */
  lemma OverlayIdempotent(h: map<string, string>, hs: seq<Header>)
    ensures Overlay(Overlay(h, hs), hs) == Overlay(h, hs)
  {
    var once := Overlay(h, hs);
    var twice := Overlay(once, hs);
    forall k | k in twice ensures twice[k] == once[k] {
      if k in Keys(hs) {
        var i := LastIndexOf(hs, k);
      }
    }
  }

  /** Every listed name has a last occurrence. */
  lemma LastIndexOf(hs: seq<Header>, k: string) returns (i: int)
    requires k in Keys(hs)
    ensures 0 <= i < |hs| && hs[i].key == k && IsLast(hs, i)
  {
    var i0 :| 0 <= i0 < |hs| && hs[i0].key == k;
    i := i0;
    while i + 1 < |hs| && exists j :: i < j < |hs| && hs[j].key == k
      invariant 0 <= i < |hs| && hs[i].key == k
      decreases |hs| - i
    {
      var j :| i < j < |hs| && hs[j].key == k;
      i := j;
    }
  }
}
