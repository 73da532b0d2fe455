/**
 * The few JavaScript built-ins that the gateway and the client lean on,
 * stated once: `Array.prototype.find` (by position), `Array.prototype.filter`,
 * `String.prototype.toLowerCase` on ASCII letters, and `a || b` on strings.
 */
module Builtins {

  datatype Option<+T> = None | Some(value: T) {
    /** `x ?? default`: the carried value, or the default when absent. */
    function GetOr(default: T): T {
      if Some? then value else default
    }
  }

  /** The position of the first element satisfying `p`, as `find` would pick it. */
  function FindIndex<T>(s: seq<T>, p: T -> bool): (r: Option<nat>)
    ensures r.Some? ==> r.value < |s| && p(s[r.value])
    ensures r.Some? ==> forall j :: 0 <= j < r.value ==> !p(s[j])
    ensures r.None? <==> forall j :: 0 <= j < |s| ==> !p(s[j])
  {
    if s == [] then None
    else if p(s[0]) then Some(0)
    else
      match FindIndex(s[1..], p)
      case None => None
      case Some(k) => Some(k + 1)
  }

  /** `s.filter(p)`: the elements that satisfy `p`, in their original order. */
  function Filter<T>(s: seq<T>, p: T -> bool): seq<T>
  {
    if s == [] then []
    else Filter(s[..|s| - 1], p) + (if p(s[|s| - 1]) then [s[|s| - 1]] else [])
  }

  /** The positions of `s` whose element satisfies `p`, in increasing order. */
  function KeptPositions<T>(s: seq<T>, p: T -> bool): seq<nat>
  {
    if s == [] then []
    else KeptPositions(s[..|s| - 1], p) + (if p(s[|s| - 1]) then [|s| - 1] else [])
  }

  /** Every kept position lies inside `s`. */
  lemma {:induction false} KeptPositionsInside<T>(s: seq<T>, p: T -> bool)
    ensures forall k :: 0 <= k < |KeptPositions(s, p)| ==> KeptPositions(s, p)[k] < |s|
  {
    if s != [] {
      KeptPositionsInside(s[..|s| - 1], p);
    }
  }

  /** The k-th element `Filter` keeps is the element at the k-th kept position. */
  lemma {:induction false} FilterAtKeptPositions<T>(s: seq<T>, p: T -> bool)
    ensures |Filter(s, p)| == |KeptPositions(s, p)|
    ensures forall k :: 0 <= k < |KeptPositions(s, p)| ==>
      KeptPositions(s, p)[k] < |s| && Filter(s, p)[k] == s[KeptPositions(s, p)[k]]
  {
    if s != [] {
      var init := s[..|s| - 1];
      FilterAtKeptPositions(init, p);
      KeptPositionsInside(init, p);
      KeptPositionsInside(s, p);
      forall k | 0 <= k < |KeptPositions(init, p)|
        ensures Filter(s, p)[k] == s[KeptPositions(s, p)[k]]
      {
        assert KeptPositions(s, p)[k] == KeptPositions(init, p)[k];
        assert Filter(s, p)[k] == Filter(init, p)[k];
        assert init[KeptPositions(init, p)[k]] == s[KeptPositions(init, p)[k]];
      }
    }
  }

  /** Kept positions strictly increase. */
  lemma {:induction false} KeptPositionsIncrease<T>(s: seq<T>, p: T -> bool)
    ensures forall k, l :: 0 <= k < l < |KeptPositions(s, p)| ==> KeptPositions(s, p)[k] < KeptPositions(s, p)[l]
  {
    if s != [] {
      var init := s[..|s| - 1];
      KeptPositionsIncrease(init, p);
      KeptPositionsInside(init, p);
    }
  }

  /** A position is kept exactly when its element satisfies `p`. */
  lemma {:induction false} KeptPositionsExact<T>(s: seq<T>, p: T -> bool)
    ensures forall i :: 0 <= i < |s| ==> (i in KeptPositions(s, p) <==> p(s[i]))
  {
    if s != [] {
      var init := s[..|s| - 1];
      KeptPositionsExact(init, p);
      KeptPositionsInside(init, p);
      forall i | 0 <= i < |s| ensures i in KeptPositions(s, p) <==> p(s[i]) {
        if i < |init| {
          assert init[i] == s[i];
        }
      }
    }
  }

  /**
   * `Filter` keeps exactly the elements that satisfy `p` and keeps them in
   * order: its k-th element is the element at the k-th kept position, the kept
   * positions increase, and a position is kept exactly when its element
   * satisfies `p`.
   */
  lemma {:induction false} FilterSelects<T>(s: seq<T>, p: T -> bool)
    ensures |Filter(s, p)| == |KeptPositions(s, p)|
    ensures forall k :: 0 <= k < |KeptPositions(s, p)| ==>
      KeptPositions(s, p)[k] < |s| && Filter(s, p)[k] == s[KeptPositions(s, p)[k]]
    ensures forall k, l :: 0 <= k < l < |KeptPositions(s, p)| ==>
      KeptPositions(s, p)[k] < KeptPositions(s, p)[l]
    ensures forall i :: 0 <= i < |s| ==> (i in KeptPositions(s, p) <==> p(s[i]))
  {
    FilterAtKeptPositions(s, p);
    KeptPositionsIncrease(s, p);
    KeptPositionsExact(s, p);
  }

  /** `toLowerCase` on one character; only the ASCII letters A-Z change. */
  function LowerChar(c: char): char {
    if 'A' <= c <= 'Z' then (c as int + 32) as char else c
  }

  function Lower(s: string): string {
    seq(|s|, i requires 0 <= i < |s| => LowerChar(s[i]))
  }

  /** `a || b` on strings: the empty string is the only falsy string. */
  function Or(a: string, b: string): (r: string)
    ensures a != "" ==> r == a
    ensures a == "" ==> r == b
    ensures r != "" <==> (a != "" || b != "")
  {
    if a != "" then a else b
  }
}
