/** The longest stretch of a string that becomes uniform with at most `k` replacements. */
module ReplacementWindow {
  /** How often `c` occurs in `s[from..to]`. */
  function Occurs(s: string, c: char, from: nat, end: nat): nat
    requires from <= end <= |s|
  {
    if from == end then 0 else Occurs(s, c, from, end - 1) + if s[end - 1] == c then 1 else 0
  }

  lemma {:induction false} OccursSplits(s: string, c: char, from: nat, mid: nat, end: nat)
    requires from <= mid <= end <= |s|
    ensures Occurs(s, c, from, end) == Occurs(s, c, from, mid) + Occurs(s, c, mid, end)
    ensures Occurs(s, c, mid, end) <= end - mid
    decreases end
  {
    if mid == end {
    } else {
      OccursSplits(s, c, from, mid, end - 1);
    }
  }

  /** All but at most `k` characters of the stretch are `c`. */
  predicate FitsFor(s: string, k: nat, c: char, from: nat, end: nat)
    requires from <= end <= |s|
  {
    end - from - Occurs(s, c, from, end) <= k
  }

  ghost predicate Fits(s: string, k: nat, from: nat, end: nat)
    requires from <= end <= |s|
  {
    exists c :: FitsFor(s, k, c, from, end)
  }

  lemma {:induction false} EmptyFits(s: string, k: nat, at: nat)
    requires at <= |s|
    ensures Fits(s, k, at, at)
  {
    assert FitsFor(s, k, 'A', at, at);
  }

  /** `freq` is not below any count in the window, stale as it may be. */
  ghost predicate Covers(s: string, from: nat, end: nat, freq: nat)
    requires from <= end <= |s|
  {
    forall c :: Occurs(s, c, from, end) <= freq
  }

  /** Some stretch as long as the window, starting no later, has `freq` equal characters. */
  ghost predicate Witnessed(s: string, from: nat, end: nat, freq: nat)
    requires from <= end <= |s|
  {
    var length: nat := end - from;
    exists p: nat, c: char :: p <= from && HasAtLeast(s, c, p, length, freq)
  }

  predicate HasAtLeast(s: string, c: char, from: nat, length: nat, freq: nat) {
    from + length <= |s| && Occurs(s, c, from, from + length) >= freq
  }

  /** The stretch of `length` characters from `from` on fits. */
  ghost predicate FitsFrom(s: string, k: nat, from: nat, length: nat) {
    from + length <= |s| && Fits(s, k, from, from + length)
  }

  /** Some stretch of that length becomes uniform with `k` replacements. */
  ghost predicate Reached(s: string, k: nat, length: nat) { exists p: nat :: FitsFrom(s, k, p, length) }

  /** Every stretch that ends by `to` and fits is no longer than `best`. */
  ghost predicate NoneLonger(s: string, k: nat, end: nat, best: nat)
    requires end <= |s|
  {
    forall i, j :: 0 <= i <= j <= end && Fits(s, k, i, j) ==> j - i <= best
  }

  /** No stretch that starts before `left` and ends at `to` fits any more. */
  ghost predicate LeftBehind(s: string, k: nat, left: nat, end: nat)
    requires end <= |s|
  {
    forall i :: 0 <= i < left && i <= end ==> !Fits(s, k, i, end)
  }

  lemma LeftBehindStays(s: string, k: nat, left: nat, end: nat, next: nat)
    requires left <= end < next == end + 1 <= |s| && LeftBehind(s, k, left, end)
    ensures LeftBehind(s, k, left, next)
  {
    forall i | 0 <= i < left ensures !Fits(s, k, i, next) {
      assert !Fits(s, k, i, end);
      forall c ensures !FitsFor(s, k, c, i, next) {
        assert !FitsFor(s, k, c, i, end);
        OccursSplits(s, c, i, end, next);
      }
    }
  }

  /** A window too long for the highest count ever seen does not fit. */
  lemma TooLong(s: string, k: nat, left: nat, end: nat, freq: nat)
    requires left <= end <= |s| && Covers(s, left, end, freq) && end - left - freq > k
    ensures !Fits(s, k, left, end)
  {
  }

  lemma CoversGrown(s: string, from: nat, end: nat, next: nat, freq: nat)
    requires from <= end < next == end + 1 <= |s| && Covers(s, from, end, freq)
    ensures var n := Occurs(s, s[end], from, next); Covers(s, from, next, if n > freq then n else freq)
  {
    forall c ensures c == s[end] || Occurs(s, c, from, next) <= freq {
      assert Occurs(s, c, from, end) <= freq;
      assert c != s[end] ==> Occurs(s, c, from, next) == Occurs(s, c, from, end);
    }
  }

  lemma CoversShrunk(s: string, from: nat, next: nat, end: nat, freq: nat)
    requires from < next == from + 1 <= end <= |s| && Covers(s, from, end, freq)
    ensures Covers(s, next, end, freq)
  {
    forall c ensures Occurs(s, c, next, end) <= freq {
      OccursSplits(s, c, from, next, end);
      assert Occurs(s, c, from, end) <= freq;
    }
  }

  lemma WitnessGrown(s: string, from: nat, end: nat, freq: nat)
    requires from <= end < |s| && Witnessed(s, from, end, freq)
    ensures Witnessed(s, from, end + 1, freq)
  {
    var length: nat := end - from;
    var p: nat, c: char :| p <= from && HasAtLeast(s, c, p, length, freq);
    OccursSplits(s, c, p, p + length, p + length + 1);
    var longer: nat := end + 1 - from;
    assert HasAtLeast(s, c, p, longer, freq);
  }

  lemma WitnessMoved(s: string, from: nat, end: nat, freq: nat)
    requires from <= end < |s| && Witnessed(s, from, end, freq)
    ensures Witnessed(s, from + 1, end + 1, freq)
  {
    var length: nat := end - from;
    var p: nat, c: char :| p <= from && HasAtLeast(s, c, p, length, freq);
    assert p <= from + 1 && HasAtLeast(s, c, p, length, freq);
  }

  /** The window's length is the answer so far. */
  lemma WindowIsBest(s: string, k: nat, left: nat, end: nat, length: nat, freq: nat, before: nat)
    requires left <= end <= |s| && length == end - left && end > 0 && end - left - freq <= k && end - left >= before
    requires Witnessed(s, left, end, freq) && LeftBehind(s, k, left, end) && NoneLonger(s, k, end - 1, before)
    ensures NoneLonger(s, k, end, end - left)
    ensures Reached(s, k, length)
  {
    forall i, j | 0 <= i <= j <= end && Fits(s, k, i, j) ensures j - i <= end - left {
      assert j == end ==> i >= left;
    }
    var p: nat, c: char :| p <= left && HasAtLeast(s, c, p, length, freq);
    assert FitsFor(s, k, c, p, p + length);
    assert FitsFrom(s, k, p, length);
  }

  /** What the loop knows of its window `left..end`. */
  ghost predicate Window(s: string, k: nat, count: map<char, nat>, left: nat, end: nat, freq: nat)
    requires left <= end <= |s|
  {
    Counts(s, count, left, end) && Covers(s, left, end, freq) && Witnessed(s, left, end, freq) && LeftBehind(s, k, left, end)
  }

  function Tallied(count: map<char, nat>, c: char): map<char, nat> {
    count[c := (if c in count then count[c] else 0) + 1]
  }

  lemma Grow(s: string, k: nat, count: map<char, nat>, left: nat, right: nat, freq: nat)
    requires left <= right < |s| && Window(s, k, count, left, right, freq)
    ensures Witnessed(s, left, right, freq)
    ensures var n := Tallied(count, s[right])[s[right]];
            Window(s, k, Tallied(count, s[right]), left, right + 1, if n > freq then n else freq)
  {
    var c := s[right];
    hide Counts, Covers, Witnessed, LeftBehind, Occurs;
    CountMore(s, count, left, right);
    CoversGrown(s, left, right, right + 1, freq);
    CountOf(s, Tallied(count, c), left, right + 1, c);
    LeftBehindStays(s, k, left, right, right + 1);
    if Tallied(count, c)[c] > freq {
      WitnessedHere(s, left, right + 1, c, Tallied(count, c)[c]);
    } else {
      WitnessGrown(s, left, right, freq);
    }
  }

  lemma Shrink(s: string, k: nat, count: map<char, nat>, left: nat, right: nat, freq: nat)
    requires left <= right < |s| && Window(s, k, count, left, right + 1, freq) && Witnessed(s, left, right, freq)
    requires right + 1 - left - freq > k
    ensures s[left] in count && count[s[left]] > 0
    ensures Window(s, k, count[s[left] := count[s[left]] - 1], left + 1, right + 1, freq)
  {
    hide Counts, Covers, Witnessed, LeftBehind, Occurs;
    TooLong(s, k, left, right + 1, freq);
    CoversShrunk(s, left, left + 1, right + 1, freq);
    OneMoreBehind(s, k, left, right + 1);
    WitnessMoved(s, left, right, freq);
    CountLess(s, count, left, left + 1, right + 1);
  }

  lemma WindowMeans(s: string, k: nat, count: map<char, nat>, left: nat, end: nat, freq: nat)
    requires left <= end <= |s| && Window(s, k, count, left, end, freq)
    ensures Covers(s, left, end, freq) && Witnessed(s, left, end, freq) && LeftBehind(s, k, left, end)
  {
  }

  method CharacterReplacement(s: string, k: nat) returns (best: nat)
    ensures Reached(s, k, best)
    ensures forall i, j :: 0 <= i <= j <= |s| && Fits(s, k, i, j) ==> j - i <= best
  {
    var count: map<char, nat> := map[];
    var left, maxFreq := 0, 0;
    best := 0;
    StartHolds(s, k);
    hide *;
    for right := 0 to |s|
      invariant 0 <= left <= right && best == right - left && 0 <= maxFreq && best - maxFreq <= k
      invariant Window(s, k, count, left, right, maxFreq) && NoneLonger(s, k, right, best) && Reached(s, k, best)
    {
      ghost var was, before := maxFreq, left;
      var c := s[right];
      Grow(s, k, count, left, right, maxFreq);
      count := Tallied(count, c);
      maxFreq := if count[c] > maxFreq then count[c] else maxFreq;
      while right - left + 1 - maxFreq > k
        invariant before <= left <= before + 1 && left <= right + 1
        invariant left == before + 1 ==> right + 1 - left - maxFreq <= k
        invariant Window(s, k, count, left, right + 1, maxFreq)
        decreases right + 1 - left
      {
        Shrink(s, k, count, left, right, maxFreq);
        count := count[s[left] := count[s[left]] - 1];
        left := left + 1;
      }
      WindowMeans(s, k, count, left, right + 1, maxFreq);
      WindowIsBest(s, k, left, right + 1, right + 1 - left, maxFreq, best);
      best := if right - left + 1 > best then right - left + 1 else best;
    }
    NoneLongerMeans(s, k, best);
  }

  lemma NoneLongerMeans(s: string, k: nat, best: nat)
    requires NoneLonger(s, k, |s|, best)
    ensures forall i, j :: 0 <= i <= j <= |s| && Fits(s, k, i, j) ==> j - i <= best
  {
  }

  lemma OneMoreBehind(s: string, k: nat, left: nat, end: nat)
    requires left <= end <= |s| && LeftBehind(s, k, left, end) && !Fits(s, k, left, end)
    ensures LeftBehind(s, k, left + 1, end)
  {
  }

  ghost predicate Counts(s: string, count: map<char, nat>, from: nat, end: nat)
    requires from <= end <= |s|
  {
    forall c :: (if c in count then count[c] else 0) == Occurs(s, c, from, end)
  }

  lemma CountOf(s: string, count: map<char, nat>, from: nat, end: nat, c: char)
    requires from <= end <= |s| && Counts(s, count, from, end)
    ensures (if c in count then count[c] else 0) == Occurs(s, c, from, end)
  {
  }

  lemma StartHolds(s: string, k: nat)
    ensures Window(s, k, map[], 0, 0, 0) && NoneLonger(s, k, 0, 0) && Reached(s, k, 0)
  {
    EmptyFits(s, k, 0);
    assert FitsFrom(s, k, 0, 0);
    assert HasAtLeast(s, 'A', 0, 0, 0);
  }

  lemma CountMore(s: string, count: map<char, nat>, from: nat, end: nat)
    requires from <= end < |s| && Counts(s, count, from, end)
    ensures var c := s[end]; Counts(s, count[c := (if c in count then count[c] else 0) + 1], from, end + 1)
  {
    forall c ensures Occurs(s, c, from, end + 1) == Occurs(s, c, from, end) + if c == s[end] then 1 else 0 {
    }
  }

  lemma CountLess(s: string, count: map<char, nat>, from: nat, next: nat, end: nat)
    requires from < next == from + 1 <= end <= |s| && Counts(s, count, from, end)
    ensures s[from] in count && count[s[from]] > 0 && Counts(s, count[s[from] := count[s[from]] - 1], next, end)
  {
    forall c ensures Occurs(s, c, from, end) == Occurs(s, c, next, end) + if c == s[from] then 1 else 0 {
      OccursSplits(s, c, from, next, end);
      assert Occurs(s, c, from, from) == 0;
    }
    CountOf(s, count, from, end, s[from]);
  }

  lemma WitnessedHere(s: string, from: nat, end: nat, c: char, freq: nat)
    requires from <= end <= |s| && Occurs(s, c, from, end) == freq
    ensures Witnessed(s, from, end, freq)
  {
    assert HasAtLeast(s, c, from, end - from, freq);
  }
}
