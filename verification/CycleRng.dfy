/** The test generator that cycles over a buffer (src/tests/mock_rng.rs). */
module CycleRng {
  import opened Arithmetic
  import opened Serialization
  import opened Primitives

  function Reversed<T>(s: seq<T>): (r: seq<T>)
    ensures |r| == |s|
  {
    seq(|s|, i requires 0 <= i < |s| => s[|s| - 1 - i])
  }

  /** A suffix followed by the prefix before it. */
  function Rotated<T>(s: seq<T>, steps: nat): (r: seq<T>)
    ensures |r| == |s|
  {
    if s == [] then s else s[steps % |s|..] + s[..steps % |s|]
  }

  /** `data[lo..hi].reverse()`. */
  method ReverseSlice<T>(data: array<T>, lo: nat, hi: nat)
    requires lo <= hi <= data.Length
    modifies data
    ensures data[..] == old(data[..lo]) + Reversed(old(data[lo..hi])) + old(data[hi..])
  {
    ghost var was := data[..];
    var i, j := lo, hi;
    while j - i >= 2
      invariant lo <= i <= j <= hi && i - lo == hi - j
      invariant forall k :: 0 <= k < lo || i <= k < j || hi <= k < data.Length ==> data[k] == was[k]
      invariant forall k :: lo <= k < i || j <= k < hi ==> data[k] == was[lo + hi - 1 - k]
      decreases j - i
    {
      j := j - 1;
      data[i], data[j] := data[j], data[i];
      i := i + 1;
    }
    assert forall k :: lo <= k < hi ==> data[k] == was[lo + hi - 1 - k];
    assert data[..lo] == was[..lo] && data[hi..] == was[hi..];
    assert data[lo..hi] == Reversed(was[lo..hi]);
    assert data[..] == data[..lo] + data[lo..hi] + data[hi..];
  }

  /** Reversing both parts and then the whole swaps the parts. */
  lemma ThreeReversals<T>(a: seq<T>, b: seq<T>)
    ensures Reversed(Reversed(a) + Reversed(b)) == b + a
  {
  }

  /** `rotate_left`: for every length and step count, three reversals in place move a prefix behind the rest. */
  method RotateLeft<T>(data: array<T>, steps: nat)
    modifies data
    ensures data[..] == Rotated(old(data[..]), steps)
  {
    if data.Length == 0 {
      return;
    }
    var s := steps % data.Length;
    ghost var was := data[..];
    ghost var a, b := was[..s], was[s..];
    ReverseSlice(data, 0, s);
    assert data[..] == Reversed(a) + b;
    ReverseSlice(data, s, data.Length);
    assert data[..] == Reversed(a) + Reversed(b);
    ReverseSlice(data, 0, data.Length);
    assert data[..] == Reversed(Reversed(a) + Reversed(b));
    ThreeReversals(a, b);
  }

  // ---------------------------------------------------------------------
  // The generator
  // ---------------------------------------------------------------------

  /** One request: the bytes left in the destination and the buffer afterwards. */
  function FillStep(v: Bytes, dest: Bytes): (r: (Bytes, Bytes))
    ensures |r.0| == |dest| && |r.1| == |v|
  {
    var len := if |v| < |dest| then |v| else |dest|;
    (v[..len] + dest[len..], Rotated(v, len))
  }

  class Rng {
    const v: array<byte>

    constructor (initial: Bytes)
      ensures v[..] == initial && fresh(v)
    {
      v := new byte[|initial|](i requires 0 <= i < |initial| => initial[i]);
    }

    /** `try_fill_bytes`: at most one turn of the buffer is written, the rest of the destination stays. */
    method FillBytes(dest: array<byte>)
      requires dest != v
      modifies dest, v
      ensures (dest[..], v[..]) == FillStep(old(v[..]), old(dest[..]))
    {
      var len := if v.Length < dest.Length then v.Length else dest.Length;
      ghost var was := dest[..];
      CopyFromSlice(dest, 0, v[..len]);
      assert dest[..] == v[..len] + was[len..];
      RotateLeft(v, len);
    }
  }

  /** The endless repetition of a buffer, as a tape. */
  function Repetition(initial: Bytes): Tape
    requires initial != []
  {
    (i: nat) => initial[i % |initial|]
  }

  /** The buffer after `pos` bytes were drawn. */
  function BufferAt(initial: Bytes, pos: nat): Bytes
    requires initial != []
  {
    Fill(Repetition(initial), pos, |initial|)
  }

  lemma FillSplits(tape: Tape, pos: nat, m: nat, n: nat)
    ensures Fill(tape, pos, m + n) == Fill(tape, pos, m) + Fill(tape, pos + m, n)
  {
  }

  /** One turn later the repetition is where it was. */
  lemma FillRepeats(initial: Bytes, pos: nat, len: nat)
    requires initial != []
    ensures Fill(Repetition(initial), pos + |initial|, len) == Fill(Repetition(initial), pos, len)
  {
    var a, b := Fill(Repetition(initial), pos + |initial|, len), Fill(Repetition(initial), pos, len);
    forall i | 0 <= i < len
      ensures a[i] == b[i]
    {
      ModMultiple(pos + i, 1, |initial|);
    }
  }

  /** Up to a full turn the step count needs no reduction. */
  lemma RotatedOnce(s: Bytes, steps: nat)
    requires s != [] && steps <= |s|
    ensures Rotated(s, steps) == s[steps..] + s[..steps]
  {
    if steps == |s| {
      ModMultiple(0, 1, |s|);
      assert s[0..] + s[..0] == s == s[steps..] + s[..steps];
    } else {
      PartsUnique(steps / |s|, steps % |s|, 0, steps, |s|);
    }
  }

  /** Rotating the buffer by what was drawn keeps it in step with the repetition. */
  lemma RotationAdvances(initial: Bytes, pos: nat, len: nat)
    requires initial != [] && len <= |initial|
    ensures Rotated(BufferAt(initial, pos), len) == BufferAt(initial, pos + len)
  {
    var t := Repetition(initial);
    var rest := |initial| - len;
    var first, second := Fill(t, pos, len), Fill(t, pos + len, rest);
    RotatedOnce(BufferAt(initial, pos), len);
    FillSplits(t, pos, len, rest);
    FillRepeats(initial, pos, len);
    FillSplits(t, pos + len, rest, len);
    assert (first + second)[len..] == second && (first + second)[..len] == first;
  }

  /** A request no longer than the buffer is the next stretch of the repetition, and leaves the buffer in step. */
  lemma StepIsFill(initial: Bytes, pos: nat, dest: Bytes)
    requires initial != [] && |dest| <= |initial|
    ensures FillStep(BufferAt(initial, pos), dest)
         == (Fill(Repetition(initial), pos, |dest|), BufferAt(initial, pos + |dest|))
  {
    RotationAdvances(initial, pos, |dest|);
    FillSplits(Repetition(initial), pos, |dest|, |initial| - |dest|);
    var v := BufferAt(initial, pos);
    assert v[..|dest|] + dest[|dest|..] == Fill(Repetition(initial), pos, |dest|);
  }

  /** All bytes that a series of requests receives, one after the other. */
  function Served(v: Bytes, requests: seq<Bytes>): Bytes
    decreases |requests|
  {
    if requests == [] then []
    else
      var (out, v') := FillStep(v, requests[0]);
      out + Served(v', requests[1..])
  }

  function Total(requests: seq<Bytes>): nat {
    if requests == [] then 0 else |requests[0]| + Total(requests[1..])
  }

  /** Over every series of requests no longer than the buffer, the output is a prefix of the endless repetition. */
  lemma {:induction false} ServedIsRepetition(initial: Bytes, pos: nat, requests: seq<Bytes>)
    requires initial != [] && forall i :: 0 <= i < |requests| ==> |requests[i]| <= |initial|
    ensures Served(BufferAt(initial, pos), requests) == Fill(Repetition(initial), pos, Total(requests))
    decreases |requests|
  {
    if requests != [] {
      var n := |requests[0]|;
      StepIsFill(initial, pos, requests[0]);
      ServedIsRepetition(initial, pos + n, requests[1..]);
      FillSplits(Repetition(initial), pos, n, Total(requests[1..]));
    }
  }

  /** From the initial buffer on. */
  lemma GeneratorCycles(initial: Bytes, requests: seq<Bytes>)
    requires initial != [] && forall i :: 0 <= i < |requests| ==> |requests[i]| <= |initial|
    ensures Served(initial, requests) == Fill(Repetition(initial), 0, Total(requests))
  {
    assert BufferAt(initial, 0) == initial;
    ServedIsRepetition(initial, 0, requests);
  }

  /** A longer request breaks off after one turn and leaves the end of the destination as it was. */
  lemma LongRequestBreaksOff(initial: Bytes, pos: nat, dest: Bytes)
    requires initial != [] && |dest| > |initial|
    ensures FillStep(BufferAt(initial, pos), dest)
         == (Fill(Repetition(initial), pos, |initial|) + dest[|initial|..], BufferAt(initial, pos))
  {
    RotationAdvances(initial, pos, |initial|);
    FillRepeats(initial, pos, |initial|);
  }
}
