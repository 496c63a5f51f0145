/**
 * Log.cs: the message prefix, the compact rendering of the runtime as a TimeSpan, and `Var`.
 * Clock readings, the thread id and the caller's file name are inputs; printing is not modelled.
 */
module Log {
  import opened Optional

  /** The decimal digit for `n`. */
  function DigitChar(n: nat): (c: char)
    requires n < 10
    ensures '0' <= c <= '9' && (c == '0' <==> n == 0)
  {
    (48 + n) as char
  }

  /** `n.ToString()` for a non-negative integer: no sign, no leading zeros. */
  function Digits(n: nat): (r: string)
    ensures |r| > 0 && '0' <= r[0] <= '9'
    ensures n > 0 ==> r[0] != '0'
  {
    if n < 10 then [DigitChar(n)] else Digits(n / 10) + [DigitChar(n % 10)]
  }

  /** Whether every character of `s` is a decimal digit. */
  predicate AllDigits(s: string) {
    s == [] || ('0' <= s[0] <= '9' && AllDigits(s[1..]))
  }

  lemma {:induction false} AllDigitsConcat(a: string, b: string)
    ensures AllDigits(a + b) <==> AllDigits(a) && AllDigits(b)
  {
    if a == [] {
      assert a + b == b;
    } else {
      assert (a + b)[1..] == a[1..] + b;
      AllDigitsConcat(a[1..], b);
    }
  }

  /** A string of digits has no '.'. */
  lemma {:induction false} AllDigitsNoDot(s: string)
    requires AllDigits(s)
    ensures '.' !in s
  {
    if s != [] {
      AllDigitsNoDot(s[1..]);
      assert s == [s[0]] + s[1..];
    }
  }

  lemma {:induction false} DigitsAreDigits(n: nat)
    ensures AllDigits(Digits(n))
  {
    if n >= 10 {
      DigitsAreDigits(n / 10);
      AllDigitsConcat(Digits(n / 10), [DigitChar(n % 10)]);
    }
  }

  function Zeros(k: nat): (r: string)
    ensures |r| == k
  {
    if k == 0 then "" else "0" + Zeros(k - 1)
  }

  /** A zero-padded field of at least `width` digits, as the "hh", "mm", "ss" and "fff" specifiers write it. */
  function Padded(n: nat, width: nat): string {
    var d := Digits(n);
    if |d| >= width then d else Zeros(width - |d|) + d
  }

  /** The characters TrimStart removes in Format(TimeSpan). */
  predicate Trimmed(c: char) {
    c == '0' || c == ':' || c == '.'
  }

  /** `s.TrimStart('0', ':', '.')`: drops the longest prefix made of those characters. */
  function TrimStart(s: string): (r: string)
    ensures r != [] ==> !Trimmed(r[0])
  {
    if s == [] || !Trimmed(s[0]) then s else TrimStart(s[1..])
  }

  /** Whether `s` holds a character TrimStart stops at. */
  predicate HasKept(s: string) {
    s != [] && (!Trimmed(s[0]) || HasKept(s[1..]))
  }

  lemma {:induction false} KeptConcat(a: string, b: string)
    ensures HasKept(a + b) <==> HasKept(a) || HasKept(b)
  {
    if a == [] {
      assert a + b == b;
    } else {
      assert (a + b)[1..] == a[1..] + b;
      KeptConcat(a[1..], b);
    }
  }

  /** TrimStart of a concatenation: the second part is reached only if the first is trimmed away. */
  lemma {:induction false} TrimStartConcat(a: string, b: string)
    ensures HasKept(a) ==> TrimStart(a + b) == TrimStart(a) + b
    ensures !HasKept(a) ==> TrimStart(a + b) == TrimStart(b)
  {
    if a == [] {
      assert a + b == b;
    } else {
      assert (a + b)[1..] == a[1..] + b;
      TrimStartConcat(a[1..], b);
    }
  }

  /** TrimStart empties a string exactly when it holds no character it stops at. */
  lemma {:induction false} TrimStartEmpty(s: string)
    ensures TrimStart(s) == [] <==> !HasKept(s)
  {
    if s != [] {
      TrimStartEmpty(s[1..]);
    }
  }

  lemma {:induction false} ZerosNotKept(k: nat)
    ensures !HasKept(Zeros(k))
  {
    if k > 0 {
      ZerosNotKept(k - 1);
      assert ("0" + Zeros(k - 1))[1..] == Zeros(k - 1);
    }
  }

  /** The digits of `n` hold a non-zero digit exactly when `n` is positive. */
  lemma DigitsKept(n: nat)
    ensures HasKept(Digits(n)) <==> n > 0
    ensures TrimStart(Digits(n)) == (if n == 0 then "" else Digits(n))
  {
    if n == 0 {
      assert Digits(0) == "0";
      assert Digits(0)[1..] == "";
    }
  }

  lemma PaddedKept(n: nat, width: nat)
    ensures HasKept(Padded(n, width)) <==> n > 0
    ensures TrimStart(Padded(n, width)) == (if n == 0 then "" else Digits(n))
  {
    var d := Digits(n);
    DigitsKept(n);
    if |d| < width {
      var z := Zeros(width - |d|);
      ZerosNotKept(width - |d|);
      KeptConcat(z, d);
      TrimStartConcat(z, d);
    }
  }

  /** A span of whole milliseconds split into the "d.hh:mm:ss" part and the "fff" part. */
  function WholeSeconds(ms: nat): string {
    var s := ms / 1000;
    Digits(s / 86400) + "." + Padded(s / 3600 % 24, 2) + ":" + Padded(s / 60 % 60, 2) + ":" + Padded(s % 60, 2)
  }

  /** `TimeSpan.FromMilliseconds(ms).ToString("d'.'hh':'mm':'ss'.'fff")`. */
  function Rendered(ms: nat): string {
    WholeSeconds(ms) + "." + Padded(ms % 1000, 3)
  }

  /**
   * Format(TimeSpan): trims the rendering; an empty result becomes `noTimeStr`, a result without a
   * '.' gets "ms" appended, anything else is returned unchanged.
   */
  function FormatSpan(ms: nat, noTimeStr: string := "0ms"): (r: string)
    ensures r == noTimeStr || (r != [] && !Trimmed(r[0]))
  {
    var timeStr := TrimStart(Rendered(ms));
    if timeStr == "" then noTimeStr
    else if '.' !in timeStr then timeStr + "ms"
    else timeStr
  }

  /** The whole-seconds part holds a non-zero digit exactly from one second on. */
  lemma WholeSecondsKept(ms: nat)
    ensures HasKept(WholeSeconds(ms)) <==> ms >= 1000
  {
    var s := ms / 1000;
    var a, b, c, d := Digits(s / 86400), Padded(s / 3600 % 24, 2), Padded(s / 60 % 60, 2), Padded(s % 60, 2);
    DigitsKept(s / 86400);
    PaddedKept(s / 3600 % 24, 2);
    PaddedKept(s / 60 % 60, 2);
    PaddedKept(s % 60, 2);
    KeptConcat(a, ".");
    KeptConcat(a + ".", b);
    KeptConcat(a + "." + b, ":");
    KeptConcat(a + "." + b + ":", c);
    KeptConcat(a + "." + b + ":" + c, ":");
    KeptConcat(a + "." + b + ":" + c + ":", d);
    assert !HasKept(".") && !HasKept(":");
    ClockZero(s);
  }

  /** A whole number of seconds is zero exactly when its days, hours, minutes and seconds all are. */
  lemma ClockZero(s: nat)
    ensures s == 0 <==> s / 86400 == 0 && s / 3600 % 24 == 0 && s / 60 % 60 == 0 && s % 60 == 0
  {
    if s > 0 && s % 60 == 0 && s / 60 % 60 == 0 && s / 3600 % 24 == 0 {
      assert s / 3600 == s / 60 / 60;
      assert s / 86400 == s / 3600 / 24;
    }
  }

  /** The rendering is the whole-seconds part, a '.', and the three millisecond digits. */
  lemma RenderedParts(ms: nat)
    ensures Rendered(ms) == WholeSeconds(ms) + ("." + Padded(ms % 1000, 3))
  {
  }

  /** Below one second the whole-seconds part and the '.' are trimmed away. */
  lemma TrimmedBelowSecond(ms: nat)
    requires ms < 1000
    ensures TrimStart(Rendered(ms)) == TrimStart(Padded(ms, 3))
  {
    var w, p := WholeSeconds(ms), Padded(ms, 3);
    assert ms % 1000 == ms;
    RenderedParts(ms);
    assert Rendered(ms) == w + ("." + p);
    WholeSecondsKept(ms);
    TrimStartConcat(w, "." + p);
    assert !HasKept(".") by {
      assert "."[1..] == "";
    }
    TrimStartConcat(".", p);
  }

  /** What TrimStart leaves of the rendering below and from one second. */
  lemma TrimmedRendering(ms: nat)
    ensures ms == 0 ==> TrimStart(Rendered(ms)) == ""
    ensures 0 < ms < 1000 ==> TrimStart(Rendered(ms)) == Digits(ms)
    ensures ms >= 1000 ==> TrimStart(Rendered(ms)) == TrimStart(WholeSeconds(ms)) + ("." + Padded(ms % 1000, 3))
  {
    if ms < 1000 {
      TrimmedBelowSecond(ms);
      PaddedKept(ms, 3);
    } else {
      RenderedParts(ms);
      WholeSecondsKept(ms);
      TrimStartConcat(WholeSeconds(ms), "." + Padded(ms % 1000, 3));
    }
  }

  /** A zero span renders as "0ms". */
  lemma FormatZero()
    ensures FormatSpan(0) == "0ms"
  {
    TrimmedRendering(0);
  }

  /** Below one second the output is the millisecond count without padding, followed by "ms". */
  lemma FormatBelowSecond(ms: nat)
    requires 0 < ms < 1000
    ensures FormatSpan(ms) == Digits(ms) + "ms"
  {
    TrimmedRendering(ms);
    DigitsAreDigits(ms);
    AllDigitsNoDot(Digits(ms));
  }

  /**
   * From one second on, the output is the trimmed "d.hh:mm:ss" part followed by the three
   * millisecond digits, with no "ms" suffix.
   */
  lemma FormatFromSecond(ms: nat)
    requires ms >= 1000
    ensures FormatSpan(ms) == TrimStart(WholeSeconds(ms)) + "." + Padded(ms % 1000, 3)
    ensures TrimStart(WholeSeconds(ms)) != []
  {
    TrimmedRendering(ms);
    WholeSecondsKept(ms);
    TrimStartEmpty(WholeSeconds(ms));
    var w, p := TrimStart(WholeSeconds(ms)), Padded(ms % 1000, 3);
    var t := w + ("." + p);
    assert t == TrimStart(Rendered(ms));
    assert t[|w|] == '.';
    assert t != "" && '.' in t;
    assert t == w + "." + p;
  }

  /** The default rendering is "0ms" exactly for a zero span. */
  lemma FormatZeroOnly(ms: nat)
    ensures FormatSpan(ms) == "0ms" <==> ms == 0
  {
    if ms == 0 {
      FormatZero();
    } else if ms < 1000 {
      FormatBelowSecond(ms);
      assert Digits(ms)[0] != '0';
      assert FormatSpan(ms)[0] == Digits(ms)[0];
    } else {
      FormatFromSecond(ms);
      var w := TrimStart(WholeSeconds(ms));
      assert FormatSpan(ms)[0] == w[0];
    }
  }

  /** One rendered `key: value` entry; a null key renders as nothing, as string interpolation does. */
  function Entry(key: Option<string>, value: string): string {
    key.GetOr("") + ": " + value
  }

  /** Var with one to six arguments: the entries in argument order, joined by ", ". */
  function Var(entries: seq<(Option<string>, string)>): (r: string)
    requires 1 <= |entries| <= 6
    ensures |entries| == 1 ==> r == Entry(entries[0].0, entries[0].1)
    ensures |Entry(entries[0].0, entries[0].1)| <= |r|
    ensures r[..|Entry(entries[0].0, entries[0].1)|] == Entry(entries[0].0, entries[0].1)
  {
    var first := Entry(entries[0].0, entries[0].1);
    if |entries| == 1 then first else first + ", " + Var(entries[1..])
  }

  /** Splitting the argument list splits the rendering at a ", " separator. */
  lemma {:induction false} VarSplit(a: seq<(Option<string>, string)>, b: seq<(Option<string>, string)>)
    requires 1 <= |a| && 1 <= |b| && |a| + |b| <= 6
    ensures Var(a + b) == Var(a) + ", " + Var(b)
  {
    assert (a + b)[0] == a[0];
    if |a| > 1 {
      assert (a + b)[1..] == a[1..] + b;
      VarSplit(a[1..], b);
    } else {
      assert (a + b)[1..] == b;
    }
  }

  /** The Log switches. */
  datatype Settings = Settings(
    enableTimestamp: bool, enableRuntime: bool, enableThreadId: bool,
    enableFileName: bool, enableMemberName: bool)

  /** The defaults: timestamp, runtime and file name on; thread id and member name off. */
  const Defaults := Settings(true, true, false, true, false)

  /** `DateTime.Now.ToString("[HH:mm:ss.fff] ")` for a time of day in milliseconds. */
  function Timestamp(timeOfDayMs: nat): string {
    var s := timeOfDayMs / 1000;
    "[" + Padded(s / 3600 % 24, 2) + ":" + Padded(s / 60 % 60, 2) + ":" + Padded(s % 60, 2) + "."
      + Padded(timeOfDayMs % 1000, 3) + "] "
  }

  /**
   * The message prefix: timestamp, runtime, thread id, file name and member name, each only when
   * enabled (and the member name only when known), in that order; Format appends the message.
   * `fileName` is the caller's file name without directory or extension.
   */
  function Prefix(settings: Settings, timeOfDayMs: nat, ticksMsec: nat, threadId: nat,
                  fileName: string, memberName: Option<string>): (r: string)
    ensures (!settings.enableTimestamp && !settings.enableRuntime && !settings.enableThreadId
      && !settings.enableFileName && (!settings.enableMemberName || memberName.None?)) ==> r == ""
    ensures settings.enableTimestamp ==>
      |Timestamp(timeOfDayMs)| <= |r| && r[..|Timestamp(timeOfDayMs)|] == Timestamp(timeOfDayMs)
  {
    var timestamp := if settings.enableTimestamp then Timestamp(timeOfDayMs) else "";
    var runtime := if settings.enableRuntime then "[" + FormatSpan(ticksMsec) + "] " else "";
    var thread := if settings.enableThreadId then "[THRD" + Digits(threadId) + "] " else "";
    var file := if settings.enableFileName then "[" + fileName + "] " else "";
    var member := if settings.enableMemberName && memberName.Some? then "[" + memberName.value + "] " else "";
    var rest := runtime + thread + file + member;
    assert (timestamp + rest)[..|timestamp|] == timestamp;
    timestamp + rest
  }

  /**
   * The log line: timestamp, runtime, thread id, file name and member name, each only when
   * enabled (and the member name only when known), followed by the message. `fileName` is the
   * caller's file name without directory or extension.
   */
  function Format(settings: Settings, timeOfDayMs: nat, ticksMsec: nat, threadId: nat,
                  fileName: string, memberName: Option<string>, msg: string): (r: string)
    ensures |msg| <= |r| && r[|r| - |msg|..] == msg
    ensures (!settings.enableTimestamp && !settings.enableRuntime && !settings.enableThreadId
      && !settings.enableFileName && (!settings.enableMemberName || memberName.None?)) ==> r == msg
    ensures settings.enableTimestamp ==>
      |Timestamp(timeOfDayMs)| <= |r| && r[..|Timestamp(timeOfDayMs)|] == Timestamp(timeOfDayMs)
  {
    var prefix := Prefix(settings, timeOfDayMs, ticksMsec, threadId, fileName, memberName);
    assert (prefix + msg)[|prefix|..] == msg;
    assert |Timestamp(timeOfDayMs)| <= |prefix| ==> (prefix + msg)[..|Timestamp(timeOfDayMs)|] == prefix[..|Timestamp(timeOfDayMs)|];
    prefix + msg
  }
}
