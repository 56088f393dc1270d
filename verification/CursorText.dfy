/** The texts that carry log positions: replay cursors and push deduplication keys. */
module CursorText {
  import opened Common
  import opened TaskProjection

  const U64_LIMIT: nat := 0x1_0000_0000_0000_0000

  predicate IsDigit(c: char) {
    '0' <= c <= '9'
  }

  function Digit(n: nat): char
    requires n < 10
  {
    '0' + n as char
  }

  /** Decimal display of an unsigned number. */
  function Decimal(n: nat): (s: string)
    ensures s != "" && forall i :: 0 <= i < |s| ==> IsDigit(s[i])
  {
    if n < 10 then [Digit(n)] else Decimal(n / 10) + [Digit(n % 10)]
  }

  predicate AllDigits(s: string) {
    forall i :: 0 <= i < |s| ==> IsDigit(s[i])
  }

  function Value(digits: string): nat
    requires AllDigits(digits)
  {
    if digits == "" then 0
    else Value(digits[..|digits| - 1]) * 10 + (digits[|digits| - 1] - '0') as nat
  }

  /** `str::parse::<u64>`: an optional plus sign, then digits whose value fits. */
  function ParseU64(s: string): Option<nat> {
    var digits := if s != "" && s[0] == '+' then s[1..] else s;
    if digits == "" || !AllDigits(digits) then None
    else if Value(digits) >= U64_LIMIT then None
    else Some(Value(digits))
  }

  lemma {:induction false} DecimalValue(n: nat)
    ensures Value(Decimal(n)) == n
  {
    if n >= 10 {
      DecimalValue(n / 10);
      assert Decimal(n)[..|Decimal(n)| - 1] == Decimal(n / 10);
    }
  }

  lemma DecimalInjective(a: nat, b: nat)
    requires Decimal(a) == Decimal(b)
    ensures a == b
  {
    DecimalValue(a);
    DecimalValue(b);
  }

  lemma DecimalParses(n: nat)
    requires n < U64_LIMIT
    ensures ParseU64(Decimal(n)) == Some(n)
  {
    DecimalValue(n);
    assert Decimal(n)[0] != '+';
  }

  // ----- Replay cursors -----

  /** `encode_replay_cursor`. */
  function EncodeCursor(taskId: string, sequence: nat): string {
    taskId + ":" + Decimal(sequence)
  }

  /** Where the last occurrence of a character is. */
  function LastIndex(s: string, c: char): (r: Option<nat>)
    ensures r.Some? ==> r.value < |s| && s[r.value] == c && forall i :: r.value < i < |s| ==> s[i] != c
    ensures r.None? ==> c !in s
  {
    if s == "" then None
    else if s[|s| - 1] == c then Some(|s| - 1)
    else LastIndex(s[..|s| - 1], c)
  }

  /** `parse_replay_cursor`: everything after the last colon is the sequence. */
  function ParseCursor(cursor: string): Result<(string, nat), TaskError> {
    match LastIndex(cursor, ':')
    case None => Err(InvalidReplayCursor)
    case Some(at) =>
      match ParseU64(cursor[at + 1..])
      case None => Err(InvalidReplayCursor)
      case Some(sequence) => Ok((cursor[..at], sequence))
  }

  lemma LastColon(taskId: string, tail: string)
    requires ':' !in tail
    ensures LastIndex(taskId + ":" + tail, ':') == Some(|taskId|)
  {
    var s := taskId + ":" + tail;
    assert s[|taskId|] == ':';
    assert forall i :: |taskId| < i < |s| ==> s[i] == tail[i - |taskId| - 1];
  }

  /** Every cursor the server hands out parses back to its task and position, colons in task ids included. */
  lemma CursorRoundTrip(taskId: string, sequence: nat)
    requires sequence < U64_LIMIT
    ensures ParseCursor(EncodeCursor(taskId, sequence)) == Ok((taskId, sequence))
  {
    hide LastIndex, ParseU64;
    var tail := Decimal(sequence);
    LastColon(taskId, tail);
    DecimalParses(sequence);
    var cursor := EncodeCursor(taskId, sequence);
    assert cursor[|taskId| + 1..] == tail && cursor[..|taskId|] == taskId;
  }

  /** Parsing accepts exactly a task id, a colon and a number. */
  lemma CursorAccepts(cursor: string, taskId: string, sequence: nat)
    ensures ParseCursor(cursor) == Ok((taskId, sequence))
            <==> exists tail :: cursor == taskId + ":" + tail && ':' !in tail && ParseU64(tail) == Some(sequence)
  {
    hide ParseU64;
    if ParseCursor(cursor) == Ok((taskId, sequence)) {
      var at := LastIndex(cursor, ':').value;
      var tail := cursor[at + 1..];
      assert cursor == taskId + ":" + tail && ':' !in tail && ParseU64(tail) == Some(sequence);
    }
    if tail :| cursor == taskId + ":" + tail && ':' !in tail && ParseU64(tail) == Some(sequence) {
      LastColon(taskId, tail);
      assert cursor[|taskId| + 1..] == tail && cursor[..|taskId|] == taskId;
    }
  }

  // ----- Push deduplication keys -----

  /** The idempotency key of one event's notification to one config. */
  function PushKey(taskId: string, sequence: nat, configId: string): string {
    "a2a-push:" + taskId + ":" + Decimal(sequence) + ":" + configId
  }

  lemma DigitAt(digits: string, rest: string, k: nat)
    requires AllDigits(digits) && k < |digits|
    ensures (digits + ":" + rest)[k] != ':'
  {
    assert (digits + ":" + rest)[k] == digits[k];
  }

  lemma NotShorter(a: string, b: string, x: string, y: string)
    requires AllDigits(b) && a + ":" + x == b + ":" + y
    ensures |b| <= |a|
  {
    assert (a + ":" + x)[|a|] == ':';
    if |a| < |b| {
      DigitAt(b, y, |a|);
    }
  }

  /** Digits end at the first colon. */
  lemma SplitAtColon(a: string, b: string, x: string, y: string)
    requires AllDigits(a) && AllDigits(b) && a + ":" + x == b + ":" + y
    ensures a == b && x == y
  {
    NotShorter(a, b, x, y);
    NotShorter(b, a, y, x);
    var s := a + ":" + x;
    assert a == s[..|a|] && b == s[..|b|];
    assert x == s[|a| + 1..] && y == s[|b| + 1..];
  }

  /** For one task the key names its event and its config, whatever characters the config id holds. */
  lemma PushKeyInjective(taskId: string, i: nat, c: string, j: nat, d: string)
    requires PushKey(taskId, i, c) == PushKey(taskId, j, d)
    ensures i == j && c == d
  {
    var prefix := "a2a-push:" + taskId + ":";
    var left, right := Decimal(i) + ":" + c, Decimal(j) + ":" + d;
    assert PushKey(taskId, i, c) == prefix + left;
    assert PushKey(taskId, j, d) == prefix + right;
    assert left == (prefix + left)[|prefix|..] && right == (prefix + right)[|prefix|..];
    SplitAtColon(Decimal(i), Decimal(j), c, d);
    DecimalInjective(i, j);
  }

  /** Across tasks it does not: ids may hold colons.  Outboxes are kept per task. */
  lemma PushKeyCollidesAcrossTasks(taskId: string, i: nat, j: nat, configId: string)
    ensures PushKey(taskId, i, Decimal(j) + ":" + configId) == PushKey(taskId + ":" + Decimal(i), j, configId)
    ensures taskId != taskId + ":" + Decimal(i)
  {
    var d := Decimal(j) + ":" + configId;
    assert PushKey(taskId, i, d) == "a2a-push:" + taskId + ":" + Decimal(i) + ":" + Decimal(j) + ":" + configId;
    assert |taskId| < |taskId + ":" + Decimal(i)|;
  }
}
