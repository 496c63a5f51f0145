/**
 * The self-contained helpers of App.cs: the deterministic string hash (computed in unchecked
 * 32-bit arithmetic, so modelled over bv32) and the decision taken by the cancellable deferred call.
 */
module App {
  import opened Optional

  /** A C# `char`: one UTF-16 code unit. */
  type CodeUnit = bv16

  /** `(5381 << 16) + 5381`, the start value of both accumulators. */
  const Seed: bv32 := ((5381 as bv32) << 16) + 5381
  const Multiplier: bv32 := 1566083941

  /** One round of the djb2-style mix: `((h << 5) + h) ^ c`, wrapping at 32 bits. */
  function Mix(h: bv32, c: CodeUnit): bv32 {
    ((h << 5) + h) ^ (c as bv32)
  }

  /** Mixes the code units of `t` into `h`, first unit first. */
  function MixAll(h: bv32, t: seq<CodeUnit>): bv32
    decreases |t|
  {
    if t == [] then h else Mix(MixAll(h, t[..|t| - 1]), t[|t| - 1])
  }

  /** The units at even indices 0, 2, 4, ... */
  function Evens(s: seq<CodeUnit>): (r: seq<CodeUnit>)
    ensures |r| == (|s| + 1) / 2
    ensures forall k :: 0 <= k < |r| ==> r[k] == s[2 * k]
  {
    seq((|s| + 1) / 2, k requires 0 <= k < (|s| + 1) / 2 => s[2 * k])
  }

  /** The units at odd indices 1, 3, 5, ... */
  function Odds(s: seq<CodeUnit>): (r: seq<CodeUnit>)
    ensures |r| == |s| / 2
    ensures forall k :: 0 <= k < |r| ==> r[k] == s[2 * k + 1]
  {
    seq(|s| / 2, k requires 0 <= k < |s| / 2 => s[2 * k + 1])
  }

  /** `hash1 + hash2 * 1566083941` with wrap-around. */
  function Combine(hash1: bv32, hash2: bv32): bv32 {
    hash1 + hash2 * Multiplier
  }

  /**
   * The hash as a function of the string: even-index units feed the first accumulator, odd-index
   * units the second, both starting at `Seed`.
   */
  function DeterministicHash(s: seq<CodeUnit>): bv32 {
    Combine(MixAll(Seed, Evens(s)), MixAll(Seed, Odds(s)))
  }

  /** The hash read as a C# `int` (two's complement). */
  function ToInt32(b: bv32): (r: int)
    ensures -0x8000_0000 <= r < 0x8000_0000
    ensures r >= 0 <==> b < 0x8000_0000
  {
    var n := b as int;
    assert 0 <= n < 0x1_0000_0000;
    if n < 0x8000_0000 then n else n - 0x1_0000_0000
  }

  lemma MixAllSnoc(h: bv32, t: seq<CodeUnit>, c: CodeUnit)
    ensures MixAll(h, t + [c]) == Mix(MixAll(h, t), c)
  {
    assert (t + [c])[..|t|] == t;
  }

  lemma EvensExtend(s: seq<CodeUnit>, i: nat)
    requires i % 2 == 0 && i < |s|
    ensures Evens(s[..i + 1]) == Evens(s[..i]) + [s[i]]
  {
    var l, r := Evens(s[..i + 1]), Evens(s[..i]) + [s[i]];
    assert |l| == |r|;
    forall k | 0 <= k < |l| ensures l[k] == r[k] {
      if k < |l| - 1 { assert l[k] == s[2 * k]; } else { assert 2 * k == i; }
    }
  }

  lemma EvensSkipOdd(s: seq<CodeUnit>, i: nat)
    requires i % 2 == 1 && i < |s|
    ensures Evens(s[..i + 1]) == Evens(s[..i])
  {
    var l, r := Evens(s[..i + 1]), Evens(s[..i]);
    assert |l| == |r|;
    forall k | 0 <= k < |l| ensures l[k] == r[k] {
      assert l[k] == s[2 * k];
    }
  }

  lemma OddsExtend(s: seq<CodeUnit>, i: nat)
    requires i % 2 == 1 && i < |s|
    ensures Odds(s[..i + 1]) == Odds(s[..i]) + [s[i]]
  {
    var l, r := Odds(s[..i + 1]), Odds(s[..i]) + [s[i]];
    assert |l| == |r|;
    forall k | 0 <= k < |l| ensures l[k] == r[k] {
      if k < |l| - 1 { assert l[k] == s[2 * k + 1]; } else { assert 2 * k + 1 == i; }
    }
  }

  lemma OddsSkipEven(s: seq<CodeUnit>, i: nat)
    requires i % 2 == 0 && i < |s|
    ensures Odds(s[..i + 1]) == Odds(s[..i])
  {
    var l, r := Odds(s[..i + 1]), Odds(s[..i]);
    assert |l| == |r|;
    forall k | 0 <= k < |l| ensures l[k] == r[k] {
      assert l[k] == s[2 * k + 1];
    }
  }

  /** Consuming an even index advances hash1 and leaves hash2's input unchanged. */
  lemma StepEven(s: seq<CodeUnit>, i: nat)
    requires i % 2 == 0 && i < |s|
    ensures MixAll(Seed, Evens(s[..i + 1])) == Mix(MixAll(Seed, Evens(s[..i])), s[i])
    ensures Odds(s[..i + 1]) == Odds(s[..i])
  {
    EvensExtend(s, i);
    OddsSkipEven(s, i);
    MixAllSnoc(Seed, Evens(s[..i]), s[i]);
  }

  /** Consuming an odd index advances hash2 and leaves hash1's input unchanged. */
  lemma StepOdd(s: seq<CodeUnit>, i: nat)
    requires i % 2 == 1 && i < |s|
    ensures MixAll(Seed, Odds(s[..i + 1])) == Mix(MixAll(Seed, Odds(s[..i])), s[i])
    ensures Evens(s[..i + 1]) == Evens(s[..i])
  {
    OddsExtend(s, i);
    EvensSkipOdd(s, i);
    MixAllSnoc(Seed, Odds(s[..i]), s[i]);
  }

  /**
   * GetDeterministicHashCode: steps `i` by two, mixing `str[i]` into hash1 and, unless `i` is the
   * last index, `str[i + 1]` into hash2; the result is the string's `DeterministicHash`.
   */
  method GetDeterministicHashCode(str: seq<CodeUnit>) returns (r: bv32)
    ensures r == DeterministicHash(str)
  {
    var hash1 := Seed;
    var hash2 := hash1;
    var i := 0;
    while i < |str|
      invariant 0 <= i <= |str| && i % 2 == 0
      invariant hash1 == MixAll(Seed, Evens(str[..i]))
      invariant hash2 == MixAll(Seed, Odds(str[..i]))
    {
      StepEven(str, i);
      hash1 := Mix(hash1, str[i]);
      if i == |str| - 1 {
        assert str[..i + 1] == str;
        return Combine(hash1, hash2);
      }
      StepOdd(str, i + 1);
      hash2 := Mix(hash2, str[i + 1]);
      i := i + 2;
    }
    assert str[..i] == str;
    r := Combine(hash1, hash2);
  }

  /** The empty string hashes to `Seed + Seed * 1566083941`, which is 757602046. */
  lemma EmptyStringHash()
    ensures DeterministicHash([]) == Seed + Seed * Multiplier
    ensures ToInt32(DeterministicHash([])) == 757602046
  {
    assert Evens([]) == [] && Odds([]) == [];
  }

  /** A unit at an odd index never reaches the first accumulator. */
  lemma {:induction false} OddUnitsDoNotFeedHash1(s: seq<CodeUnit>, t: seq<CodeUnit>)
    requires |s| == |t|
    requires forall k :: 0 <= k < |s| && k % 2 == 0 ==> s[k] == t[k]
    ensures MixAll(Seed, Evens(s)) == MixAll(Seed, Evens(t))
  {
    assert Evens(s) == Evens(t);
  }

  /** The outcome of one deferred call: whether the action ran, and what onComplete received. */
  datatype DeferredOutcome = DeferredOutcome(actionRan: bool, completion: Option<bool>)

  /**
   * The cancellable CallDeferred: the action runs iff the source object is still valid and the
   * token is not cancelled, and onComplete (when given) always receives that same flag.
   */
  function CallDeferred(instanceValid: bool, cancellationRequested: bool, hasOnComplete: bool): (o: DeferredOutcome)
    ensures o.actionRan <==> instanceValid && !cancellationRequested
    ensures hasOnComplete <==> o.completion.Some?
    ensures o.completion.Some? ==> o.completion.value == o.actionRan
  {
    var invokeAction := instanceValid && !cancellationRequested;
    DeferredOutcome(invokeAction, if hasOnComplete then Some(invokeAction) else None)
  }
}
