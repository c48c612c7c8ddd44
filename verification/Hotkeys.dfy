/** The emergency key sequence: a bounded window of recent presses, evicted by length and by age. */
module Hotkeys {
  import opened Config

  datatype Press = Press(code: u16, at: int)

  function Codes(presses: seq<Press>): seq<u16> {
    seq(|presses|, i requires 0 <= i < |presses| => presses[i].code)
  }

  predicate Expired(press: Press, within: nat, now: int) {
    now - press.at > within
  }

  function LastOnes(presses: seq<Press>, n: nat): seq<Press> {
    if |presses| <= n then presses else presses[|presses| - n..]
  }

  function DropExpired(presses: seq<Press>, within: nat, now: int): seq<Press> {
    if presses != [] && Expired(presses[0], within, now) then DropExpired(presses[1..], within, now) else presses
  }

  /** The window after a press, before a match clears it. */
  function Window(sequence: seq<u16>, within: nat, buffer: seq<Press>, press: Press): seq<Press> {
    DropExpired(LastOnes(buffer + [press], |sequence|), within, press.at)
  }

  predicate Fires(sequence: seq<u16>, within: nat, buffer: seq<Press>, press: Press) {
    Codes(Window(sequence, within, buffer, press)) == sequence
  }

  /** The loop state of one configured hotkey. */
  class HotkeyMatcher {
    const sequence: seq<u16>
    const within: nat
    var buffer: seq<Press>

    constructor (sequence: seq<u16>, within: nat)
      ensures this.sequence == sequence && this.within == within && buffer == []
    {
      this.sequence, this.within, buffer := sequence, within, [];
    }

    method KeyDown(code: u16, now: int) returns (fired: bool)
      modifies this
      ensures fired == Fires(sequence, within, old(buffer), Press(code, now))
      ensures buffer == if fired then [] else Window(sequence, within, old(buffer), Press(code, now))
    {
      ghost var full := buffer + [Press(code, now)];
      buffer := buffer + [Press(code, now)];
      while |buffer| > |sequence|
        invariant LastOnes(buffer, |sequence|) == LastOnes(full, |sequence|)
      {
        buffer := buffer[1..];
      }
      while buffer != [] && now - buffer[0].at > within
        invariant DropExpired(buffer, within, now) == DropExpired(LastOnes(full, |sequence|), within, now)
        decreases |buffer|
      {
        buffer := buffer[1..];
      }
      fired := |buffer| == |sequence| && Codes(buffer) == sequence;
      if fired {
        buffer := [];
      }
    }
  }

  // ---------------------------------------------------------------- runs

  function BufferAfter(sequence: seq<u16>, within: nat, presses: seq<Press>): seq<Press> {
    if presses == [] then []
    else
      var before, last := BufferAfter(sequence, within, presses[..|presses| - 1]), presses[|presses| - 1];
      if Fires(sequence, within, before, last) then [] else Window(sequence, within, before, last)
  }

  predicate FiresAt(sequence: seq<u16>, within: nat, presses: seq<Press>, j: nat)
    requires j < |presses|
  {
    Fires(sequence, within, BufferAfter(sequence, within, presses[..j]), presses[j])
  }

  /** How many presses a previous match has used up. */
  function UsedUp(sequence: seq<u16>, within: nat, presses: seq<Press>): nat
    ensures UsedUp(sequence, within, presses) <= |presses|
  {
    if presses == [] then 0
    else if FiresAt(sequence, within, presses, |presses| - 1) then |presses|
    else UsedUp(sequence, within, presses[..|presses| - 1])
  }

  ghost predicate Monotone(presses: seq<Press>) {
    forall i, j | 0 <= i < j < |presses| :: presses[i].at <= presses[j].at
  }

  lemma {:induction false} DropExpiredIsExact(presses: seq<Press>, within: nat, now: int) returns (d: nat)
    requires Monotone(presses)
    ensures d <= |presses| && DropExpired(presses, within, now) == presses[d..]
    ensures forall i | 0 <= i < |presses| :: Expired(presses[i], within, now) <==> i < d
  {
    if presses == [] || !Expired(presses[0], within, now) {
      d := 0;
    } else {
      d := DropExpiredIsExact(presses[1..], within, now);
      d := d + 1;
    }
  }

  /** Eviction removes exactly what is used up, too far back or too old: the buffer is a suffix of the presses, and
      every press since the last match and among the last `|sequence|` that it leaves out has expired. */
  ghost predicate Explained(sequence: seq<u16>, within: nat, presses: seq<Press>, buffer: seq<Press>, used: nat, k: nat) {
    && used <= k <= |presses| && |presses| - k <= |sequence| && buffer == presses[k..]
    && (forall i | k <= i < |presses| :: !Expired(presses[i], within, presses[|presses| - 1].at))
    && (forall i | 0 <= i < k && used <= i && |presses| - |sequence| <= i ::
          Expired(presses[i], within, presses[|presses| - 1].at))
  }

  lemma WindowExplained(sequence: seq<u16>, within: nat, presses: seq<Press>, buffer: seq<Press>, used: nat, k: nat)
    returns (n: nat)
    requires presses != [] && Monotone(presses)
    requires Explained(sequence, within, presses[..|presses| - 1], buffer, used, k)
    ensures Explained(sequence, within, presses, Window(sequence, within, buffer, presses[|presses| - 1]), used, n)
  {
    var last := presses[|presses| - 1];
    var cut := if |presses| - k <= |sequence| then k else |presses| - |sequence|;
    assert buffer + [last] == presses[k..];
    assert LastOnes(buffer + [last], |sequence|) == presses[cut..];
    n := SuffixExpiry(presses, cut, within, last.at);
    OldExpiry(sequence, within, presses, buffer, used, k);
  }

  lemma SuffixExpiry(presses: seq<Press>, cut: nat, within: nat, now: int) returns (n: nat)
    requires cut <= |presses| && Monotone(presses)
    ensures cut <= n <= |presses| && DropExpired(presses[cut..], within, now) == presses[n..]
    ensures forall i | cut <= i < |presses| :: Expired(presses[i], within, now) <==> i < n
  {
    var d := DropExpiredIsExact(presses[cut..], within, now);
    n := cut + d;
    assert presses[cut..][d..] == presses[n..];
    forall i | cut <= i < |presses| ensures Expired(presses[i], within, now) <==> i < n {
      assert presses[i] == presses[cut..][i - cut];
    }
  }

  /** What had expired at the previous press has expired now. */
  lemma OldExpiry(sequence: seq<u16>, within: nat, presses: seq<Press>, buffer: seq<Press>, used: nat, k: nat)
    requires presses != [] && Monotone(presses)
    requires Explained(sequence, within, presses[..|presses| - 1], buffer, used, k)
    ensures forall i | 0 <= i < k && used <= i && |presses| - |sequence| <= i ::
              Expired(presses[i], within, presses[|presses| - 1].at)
  {
    forall i | 0 <= i < k && used <= i && |presses| - |sequence| <= i
      ensures Expired(presses[i], within, presses[|presses| - 1].at)
    {
      assert Expired(presses[..|presses| - 1][i], within, presses[|presses| - 2].at);
    }
  }

  lemma {:induction false} BufferExplained(sequence: seq<u16>, within: nat, presses: seq<Press>) returns (k: nat)
    requires Monotone(presses)
    ensures Explained(sequence, within, presses, BufferAfter(sequence, within, presses),
                      UsedUp(sequence, within, presses), k)
  {
    k := |presses|;
    if presses != [] && !FiresAt(sequence, within, presses, |presses| - 1) {
      var before := presses[..|presses| - 1];
      k := BufferExplained(sequence, within, before);
      k := WindowExplained(sequence, within, presses, BufferAfter(sequence, within, before),
                           UsedUp(sequence, within, before), k);
    }
  }

  /** The sequence fires at press `j` exactly when the last `|sequence|` presses, none of them used by an earlier
      match, spell it and the first of them is not too old. */
  lemma HotkeyExact(sequence: seq<u16>, within: nat, presses: seq<Press>, j: nat)
    requires sequence != [] && Monotone(presses) && j < |presses|
    ensures FiresAt(sequence, within, presses, j) <==>
            var first := j + 1 - |sequence|;
            && UsedUp(sequence, within, presses[..j]) <= first
            && Codes(presses[first..j + 1]) == sequence
            && presses[j].at - presses[first].at <= within
  {
    var before, upto := presses[..j], presses[..j + 1];
    var first := j + 1 - |sequence|;
    var k := BufferExplained(sequence, within, before);
    assert upto[..j] == before;
    var n := WindowExplained(sequence, within, upto, BufferAfter(sequence, within, before),
                             UsedUp(sequence, within, before), k);
    MatchByWindow(sequence, within, upto, Window(sequence, within, BufferAfter(sequence, within, before), presses[j]),
                  UsedUp(sequence, within, before), n);
    assert first >= 0 ==> upto[first..] == presses[first..j + 1];
  }

  lemma MatchByWindow(sequence: seq<u16>, within: nat, presses: seq<Press>, window: seq<Press>, used: nat, n: nat)
    requires sequence != [] && presses != [] && Explained(sequence, within, presses, window, used, n)
    ensures Codes(window) == sequence <==>
            var first := |presses| - |sequence|;
            && used <= first && Codes(presses[first..]) == sequence
            && !Expired(presses[first], within, presses[|presses| - 1].at)
  {
    assert |Codes(window)| == |presses| - n;
  }
}
