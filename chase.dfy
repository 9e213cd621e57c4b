/** Pointer chasing through the buffer.

    Two loops of the engine follow `u4` words as absolute offsets: the document setup
    (`while (u4(p)) p = begin + u4(p);`) and the sibling step of a node cursor
    (`offset_ = end_offset();`).  Neither is bounded in the engine, so a malformed file
    can make either loop forever.  This module proves the fact that lets the model bound
    both loops without changing their meaning: a chase that stays on readable words for
    more than |buf| steps has revisited a position, and from then on it repeats itself. */
module Chase {
  import opened Bytes

  /** One step of the chase: the word at `q`, read as an absolute offset. */
  function Follow(buf: seq<byte>, q: nat): (r: nat)
  {
    if q + 4 <= |buf| then U4(buf, q) else q
  }

  /** The position reached from `p` after `k` steps. */
  function Hop(buf: seq<byte>, p: nat, k: nat): (r: nat)
    decreases k
  {
    if k == 0 then p else Hop(buf, Follow(buf, p), k - 1)
  }

  lemma {:induction false} HopAdd(buf: seq<byte>, p: nat, a: nat, b: nat)
    ensures Hop(buf, p, a + b) == Hop(buf, Hop(buf, p, a), b)
    decreases a
  {
    if a > 0 {
      HopAdd(buf, Follow(buf, p), a - 1, b);
    }
  }

  /** More than `n` values below `n` contain a repetition. */
  lemma {:induction false} Pigeonhole(s: seq<nat>, n: nat)
    requires |s| > n
    requires forall i :: 0 <= i < |s| ==> s[i] < n
    ensures exists i, j :: 0 <= i < j < |s| && s[i] == s[j]
    decreases n
  {
    var x := s[|s| - 1];
    var t := s[..|s| - 1];
    if k :| 0 <= k < |t| && t[k] == x {
      assert s[k] == s[|s| - 1];
    } else {
      // Rename the value n - 1 to x: the prefix then holds |s| - 1 values below n - 1.
      var u := seq(|t|, i requires 0 <= i < |t| => if t[i] == n - 1 then x else t[i]);
      assert forall i :: 0 <= i < |u| ==> u[i] < n - 1 by {
        forall i | 0 <= i < |u| ensures u[i] < n - 1 {
          assert t[i] == s[i] && t[i] != x;
        }
      }
      Pigeonhole(u, n - 1);
      var i, j :| 0 <= i < j < |u| && u[i] == u[j];
      assert t[i] == t[j];
      assert s[i] == s[j];
    }
  }

  /** A chase that stays on readable words for |buf| + 1 positions repeats itself: every
      later position `k` is one of the first |buf| + 1, namely position `m`. */
  lemma {:induction false} HopBack(buf: seq<byte>, p: nat, k: nat) returns (m: nat)
    requires forall m :: 0 <= m <= |buf| ==> Hop(buf, p, m) + 4 <= |buf|
    ensures m <= |buf| && Hop(buf, p, m) == Hop(buf, p, k)
    decreases k
  {
    if k > |buf| {
      assert Hop(buf, p, 0) + 4 <= |buf|;
      var s := seq(|buf| + 1, m requires 0 <= m <= |buf| => Hop(buf, p, m));
      Pigeonhole(s, |buf| - 3);
      var i, j :| 0 <= i < j < |s| && s[i] == s[j];
      HopAdd(buf, p, j, k - j);
      HopAdd(buf, p, i, k - j);
      m := HopBack(buf, p, i + (k - j));
    } else {
      m := k;
    }
  }
}
