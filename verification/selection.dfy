/**
 * In-order selection from a scanned page.
 *
 * Both result loops of the DynamoDB controller have the same shape: visit
 * every item of the page in index order, skip the item unless a `guard let`
 * accepts it, and append what the guard extracted. `Collect` is that shape
 * as a function of the page and of the guard (`pick`), and the lemmas here
 * are stated once for both loops.
 */
module Selection {
  import opened Wrappers

  /** The values `pick` extracts from `s`, in the order of `s`. */
  function Collect<A, B>(s: seq<A>, pick: A -> Option<B>): (r: seq<B>)
    ensures |r| <= |s|
  {
    if s == [] then []
    else
      var rest := Collect(s[1..], pick);
      match pick(s[0])
      case Some(b) => [b] + rest
      case None => rest
  }

  /** Visiting `a` and then `b` collects what visiting each collects, in that order. */
  lemma {:induction false} CollectAppend<A, B>(a: seq<A>, b: seq<A>, pick: A -> Option<B>)
    ensures Collect(a + b, pick) == Collect(a, pick) + Collect(b, pick)
  {
    if a == [] {
      assert a + b == b;
    } else {
      assert (a + b)[1..] == a[1..] + b;
      CollectAppend(a[1..], b, pick);
    }
  }

  /** A value is collected exactly when the guard extracts it from some item. */
  lemma {:induction false} CollectContains<A, B>(s: seq<A>, pick: A -> Option<B>, b: B)
    ensures b in Collect(s, pick) <==> exists j :: 0 <= j < |s| && pick(s[j]) == Some(b)
  {
    if s != [] {
      CollectContains(s[1..], pick, b);
      if b in Collect(s[1..], pick) {
        var j :| 0 <= j < |s[1..]| && pick(s[1..][j]) == Some(b);
        assert pick(s[j + 1]) == Some(b);
      }
      if exists j :: 0 <= j < |s| && pick(s[j]) == Some(b) {
        var j :| 0 <= j < |s| && pick(s[j]) == Some(b);
        if j > 0 {
          assert pick(s[1..][j - 1]) == Some(b);
        }
      }
    }
  }

  /**
   * The positions of the accepted items. Its contract is the reference
   * description of `Collect`: the k-th collected value is what the guard
   * extracts from the item at the k-th accepted position, those positions
   * strictly increase (scan order is kept, nothing is repeated), and every
   * accepted item is among them (nothing is skipped).
   */
  function Positions<A, B>(s: seq<A>, pick: A -> Option<B>): (p: seq<nat>)
    ensures LocatesCollected(s, pick, p)
  {
    if s == [] then []
    else
      var rest := Positions(s[1..], pick);
      var p := (if pick(s[0]).Some? then [0] else []) + Shift(rest);
      ConsPositions(s, pick, rest, p);
      p
  }

  /** `p` lists, in increasing order, exactly the positions of `s` the guard accepts, matched with what is collected. */
  ghost predicate LocatesCollected<A, B>(s: seq<A>, pick: A -> Option<B>, p: seq<nat>)
  {
    && |p| == |Collect(s, pick)|
    && (forall k :: 0 <= k < |p| ==> p[k] < |s| && pick(s[p[k]]) == Some(Collect(s, pick)[k]))
    && (forall k, l :: 0 <= k < l < |p| ==> p[k] < p[l])
    && (forall j :: 0 <= j < |s| && pick(s[j]).Some? ==> j in p)
  }

  /** Every position moved one place to the right. */
  function Shift(p: seq<nat>): (q: seq<nat>)
    ensures |q| == |p| && forall k :: 0 <= k < |p| ==> q[k] == p[k] + 1
  {
    seq(|p|, k requires 0 <= k < |p| => p[k] + 1)
  }

  /** The positions in a non-empty page: its head when the guard accepts it, then the tail's, shifted by one. */
  lemma ConsPositions<A, B>(s: seq<A>, pick: A -> Option<B>, rest: seq<nat>, p: seq<nat>)
    requires s != [] && LocatesCollected(s[1..], pick, rest)
    requires p == (if pick(s[0]).Some? then [0] else []) + Shift(rest)
    ensures LocatesCollected(s, pick, p)
  {
    var shifted := Shift(rest);
    ShiftedPositions(s, pick, rest);
    if pick(s[0]).Some? {
      AcceptedHead(s, pick, shifted, p);
    } else {
      assert Collect(s, pick) == Collect(s[1..], pick);
      assert p == shifted;
    }
  }

  /** The tail's positions, shifted by one, locate the tail's values within the whole page. */
  lemma ShiftedPositions<A, B>(s: seq<A>, pick: A -> Option<B>, rest: seq<nat>)
    requires s != [] && LocatesCollected(s[1..], pick, rest)
    ensures var shifted := Shift(rest);
      && |shifted| == |Collect(s[1..], pick)|
      && (forall k :: 0 <= k < |shifted| ==>
            0 < shifted[k] < |s| && pick(s[shifted[k]]) == Some(Collect(s[1..], pick)[k]))
      && (forall k, l :: 0 <= k < l < |shifted| ==> shifted[k] < shifted[l])
      && (forall j :: 1 <= j < |s| && pick(s[j]).Some? ==> j in shifted)
  {
    var tail := s[1..];
    var shifted := Shift(rest);
    forall k | 0 <= k < |shifted|
      ensures 0 < shifted[k] < |s| && pick(s[shifted[k]]) == Some(Collect(tail, pick)[k])
    {
      assert s[shifted[k]] == tail[rest[k]];
    }
    forall j | 1 <= j < |s| && pick(s[j]).Some? ensures j in shifted {
      assert pick(tail[j - 1]).Some?;
      var k :| 0 <= k < |rest| && rest[k] == j - 1;
      assert shifted[k] == j;
    }
  }

  /** When the guard accepts the head, position 0 comes first and the tail's shifted positions follow. */
  lemma AcceptedHead<A, B>(s: seq<A>, pick: A -> Option<B>, shifted: seq<nat>, p: seq<nat>)
    requires s != [] && pick(s[0]).Some? && p == [0] + shifted
    requires |shifted| == |Collect(s[1..], pick)|
    requires forall k :: 0 <= k < |shifted| ==>
      0 < shifted[k] < |s| && pick(s[shifted[k]]) == Some(Collect(s[1..], pick)[k])
    requires forall k, l :: 0 <= k < l < |shifted| ==> shifted[k] < shifted[l]
    requires forall j :: 1 <= j < |s| && pick(s[j]).Some? ==> j in shifted
    ensures LocatesCollected(s, pick, p)
  {
    var tail := Collect(s[1..], pick);
    var c := [pick(s[0]).value] + tail;
    assert Collect(s, pick) == c;
    forall k | 0 < k < |p| ensures p[k] < |s| && pick(s[p[k]]) == Some(c[k]) {
      assert p[k] == shifted[k - 1] && c[k] == tail[k - 1];
    }
    forall k, l | 0 <= k < l < |p| ensures p[k] < p[l] {
      assert p[l] == shifted[l - 1];
      if k > 0 {
        assert p[k] == shifted[k - 1];
      }
    }
    forall j | 0 <= j < |s| && pick(s[j]).Some? ensures j in p {
      if j > 0 {
        assert j in shifted;
      }
    }
  }

  /** Two guards that agree on every item of `s` collect the same values from it. */
  lemma {:induction false} CollectCongruent<A, B>(s: seq<A>, pick: A -> Option<B>, pick': A -> Option<B>)
    requires forall j :: 0 <= j < |s| ==> pick(s[j]) == pick'(s[j])
    ensures Collect(s, pick) == Collect(s, pick')
  {
    if s != [] {
      assert forall j :: 0 <= j < |s[1..]| ==> s[1..][j] == s[j + 1];
      CollectCongruent(s[1..], pick, pick');
    }
  }
}
