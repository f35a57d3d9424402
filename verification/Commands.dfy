/** Commands of the bridge: validation, and the text that is signed. A string is a sequence of bytes, as in
    the wire format; each char stands for one byte. */
module Commands {
  import opened ReplayCache

  datatype Command = Command(action: string, value: real, target: string, timestampMs: int, nonce: string, auth: string)

  // ----- decimal text

  function Digit(d: nat): (c: char)
    requires d < 10
    ensures '0' <= c <= '9' && DigitValue(c) == d
  {
    '0' + d as char
  }

  function DigitValue(c: char): (d: int)
    ensures '0' <= c <= '9' ==> 0 <= d < 10
  {
    c as int - '0' as int
  }

  function Decimal(n: nat): (s: string)
    ensures |s| > 0
  {
    if n < 10 then [Digit(n)] else Decimal(n / 10) + [Digit(n % 10)]
  }

  predicate AllDigits(s: string) {
    forall i :: 0 <= i < |s| ==> '0' <= s[i] <= '9'
  }

  /** The number a digit string denotes. */
  function Parse(s: string): int {
    if s == "" then 0 else 10 * Parse(s[..|s| - 1]) + DigitValue(s[|s| - 1])
  }

  lemma {:induction false} DecimalRoundTrip(n: nat)
    ensures AllDigits(Decimal(n)) && Parse(Decimal(n)) == n
    decreases n
  {
    var s := Decimal(n);
    if n < 10 {
      assert s[..0] == "";
    } else {
      DecimalRoundTrip(n / 10);
      assert s[..|s| - 1] == Decimal(n / 10);
    }
  }

  /** k digits of n, with leading zeros. */
  function Padded(n: nat, k: nat): (s: string)
    ensures |s| == k
    decreases k
  {
    if k == 0 then "" else Padded(n / 10, k - 1) + [Digit(n % 10)]
  }

  function Pow10(k: nat): nat {
    if k == 0 then 1 else 10 * Pow10(k - 1)
  }

  lemma {:induction false} PaddedRoundTrip(n: nat, k: nat)
    requires n < Pow10(k)
    ensures AllDigits(Padded(n, k)) && Parse(Padded(n, k)) == n
    decreases k
  {
    if k > 0 {
      PaddedRoundTrip(n / 10, k - 1);
      assert Padded(n, k)[..k - 1] == Padded(n / 10, k - 1);
    }
  }

  // ----- the value with six decimals

  /** Millionths, rounded to nearest. */
  function Millionths(value: real): int {
    (value * 1000000.0 + 0.5).Floor
  }

  /** A value that six decimals represent exactly. */
  predicate SixDecimals(value: real) {
    Millionths(value) as real / 1000000.0 == value
  }

  function Fixed(m: nat): string {
    Decimal(m / 1000000) + "." + Padded(m % 1000000, 6)
  }

  function FormatFixed(value: real): string {
    var m := Millionths(value);
    if m < 0 then "-" + Fixed(-m) else Fixed(m)
  }

  function FormatInt(n: int): string {
    if n < 0 then "-" + Decimal(-n) else Decimal(n)
  }

  lemma {:induction false} SixDigitsSuffice()
    ensures Pow10(6) == 1000000
  {
  }

  lemma {:induction false} FixedInjective(a: nat, b: nat)
    requires Fixed(a) == Fixed(b)
    ensures a == b
  {
    var s, n := Fixed(a), |Fixed(a)| - 7;
    assert s[..n] == Decimal(a / 1000000) && s[n + 1..] == Padded(a % 1000000, 6);
    assert Fixed(b)[..n] == Decimal(b / 1000000) && Fixed(b)[n + 1..] == Padded(b % 1000000, 6);
    DecimalRoundTrip(a / 1000000);
    DecimalRoundTrip(b / 1000000);
    SixDigitsSuffice();
    PaddedRoundTrip(a % 1000000, 6);
    PaddedRoundTrip(b % 1000000, 6);
  }

  // ----- validation

  predicate IsHexDigit(c: char) {
    '0' <= c <= '9' || 'a' <= c <= 'f' || 'A' <= c <= 'F'
  }

  predicate IsHex(s: string) {
    |s| % 2 == 0 && forall i :: 0 <= i < |s| ==> IsHexDigit(s[i])
  }

  predicate ValidFanChannelId(id: string) {
    |id| == 16 && IsHex(id)
  }

  predicate ValidFanPercent(percent: real) {
    0.0 < percent <= 100.0
  }

  predicate ValidPowerMode(value: real) {
    value == 0.0 || value == 50.0 || value == 100.0
  }

  const FAN_SPEED := "Fan H\U{c4}\U{b1}z\U{c4}\U{b1}"
  const AI_POWER := "AI \U{c4}\U{b0}\U{c5}\U{9f}lem G\U{c3}\U{bc}c\U{c3}\U{bc}"
  const SET_FAN_CHANNEL := "Set Fan Channel"
  const START_AUDIO := "Start Audio Studio"

  /** Commands that only read. */
  const READ_ONLY: set<string> :=
    {"Get Status", "Get Security", "Get Diagnostics", "Get Health", "Get Game Mode", "Get Update", "Get Sensor Health",
     "Get Sensor History", "Get Fan Channels", "Get Fetch Status", "Get Audio Devices", "Get Power Mode"}

  const ZERO_VALUED: set<string> := READ_ONLY + {"Get Audio Studio Status", "Stop Audio Studio"}

  const POWER_MODES: set<string> := {"Set Power Mode AC", "Set Power Mode DC", "Set Power Profile"}

  const OTHER_ACTIONS: set<string> := {FAN_SPEED, AI_POWER, "Set Game Mode", START_AUDIO, SET_FAN_CHANNEL}

  const ACTIONS: set<string> := ZERO_VALUED + POWER_MODES + OTHER_ACTIONS

  /** The value each action admits. */
  predicate ValueFits(action: string, value: real) {
    if action == SET_FAN_CHANNEL then ValidFanPercent(value)
    else if action in POWER_MODES then ValidPowerMode(value)
    else if action in ZERO_VALUED || action == START_AUDIO then value == 0.0
    else true
  }

  /** Only fan-channel and audio-start commands have a target; `audioTarget` says which text is an acceptable
      audio configuration. */
  predicate TargetFits(action: string, target: string, audioTarget: string -> bool) {
    if action == SET_FAN_CHANNEL then ValidFanChannelId(target)
    else if action == START_AUDIO then target != "" && audioTarget(target)
    else target == ""
  }

  /** The validation of a decoded command against a clock reading. */
  predicate Validates(cmd: Command, now: Time, audioTarget: string -> bool) {
    && cmd.action in ACTIONS
    && 0.0 <= cmd.value <= 100.0
    && SixDecimals(cmd.value)
    && cmd.timestampMs > 0
    && Fresh(cmd.timestampMs * 1_000_000, now)
    && |cmd.nonce| == 32 && IsHex(cmd.nonce)
    && |cmd.auth| == 64 && IsHex(cmd.auth)
    && |cmd.target| <= 8192
    && TargetFits(cmd.action, cmd.target, audioTarget)
    && ValueFits(cmd.action, cmd.value)
  }

  // ----- the signed text

  /** One text after another, on a line of its own. */
  function Joined(x: string, y: string): string {
    x + "\n" + y
  }

  function Payload(cmd: Command): string {
    var untargeted := Joined(Joined(Joined(cmd.action, FormatFixed(cmd.value)), FormatInt(cmd.timestampMs)), cmd.nonce);
    if cmd.target != "" then Joined(untargeted, cmd.target) else untargeted
  }

  predicate OneLine(s: string) {
    forall i :: 0 <= i < |s| ==> s[i] != '\n'
  }

  /** The first line of a text, and what follows it, are determined by the text. */
  lemma {:induction false} FirstLine(a: string, r: string, b: string, t: string)
    requires OneLine(a) && OneLine(b) && Joined(a, r) == Joined(b, t)
    ensures a == b && r == t
  {
    var s := Joined(a, r);
    assert s[|a|] == '\n' && Joined(b, t)[|b|] == '\n';
    assert s[..|a|] == a && s[..|b|] == b && s[|a| + 1..] == r && s[|b| + 1..] == t;
  }

  lemma {:induction false} ReadsAreOneLine(action: string)
    requires action in READ_ONLY
    ensures OneLine(action)
  {
  }

  lemma {:induction false} ZeroValuedAreOneLine(action: string)
    requires action in ZERO_VALUED
    ensures OneLine(action)
  {
    if action in READ_ONLY {
      ReadsAreOneLine(action);
    }
  }

  lemma {:induction false} OthersAreOneLine(action: string)
    requires action in POWER_MODES || action in OTHER_ACTIONS
    ensures OneLine(action)
  {
  }

  lemma {:induction false} ActionsAreOneLine(action: string)
    requires action in ACTIONS
    ensures OneLine(action)
  {
    if action in ZERO_VALUED {
      ZeroValuedAreOneLine(action);
    } else {
      OthersAreOneLine(action);
    }
  }

  lemma {:induction false} NumbersAreOneLine(m: nat, n: nat)
    ensures OneLine(Fixed(m)) && OneLine(Decimal(n))
  {
    DecimalRoundTrip(m / 1000000);
    DecimalRoundTrip(n);
    SixDigitsSuffice();
    PaddedRoundTrip(m % 1000000, 6);
  }

  /** The last line: a nonce of 32 characters, and a target if there is one. */
  function Tail(nonce: string, target: string): string {
    if target != "" then Joined(nonce, target) else nonce
  }

  lemma {:induction false} TailInjective(n: string, t: string, n': string, t': string)
    requires |n| == |n'| == 32 && Tail(n, t) == Tail(n', t')
    ensures n == n' && t == t'
  {
    var s := Tail(n, t);
    assert s[..32] == n && Tail(n', t')[..32] == n';
    assert t != "" ==> s[33..] == t;
    assert t' != "" ==> Tail(n', t')[33..] == t';
  }

  lemma {:induction false} LineAssociative(x: string, y: string, z: string)
    ensures Joined(Joined(x, y), z) == Joined(x, Joined(y, z))
  {
    assert x + "\n" + y + "\n" + z == x + "\n" + (y + "\n" + z);
  }

  lemma {:induction false} PayloadLines(cmd: Command, value: string, stamp: string)
    requires value == FormatFixed(cmd.value) && stamp == FormatInt(cmd.timestampMs)
    ensures Payload(cmd) == Joined(cmd.action, Joined(value, Joined(stamp, Tail(cmd.nonce, cmd.target))))
  {
    var first := Joined(cmd.action, value);
    LineAssociative(Joined(first, stamp), cmd.nonce, cmd.target);
    LineAssociative(first, stamp, Tail(cmd.nonce, cmd.target));
    LineAssociative(cmd.action, value, Joined(stamp, Tail(cmd.nonce, cmd.target)));
  }

  lemma {:induction false} SameMillionths(x: real, y: real)
    requires SixDecimals(x) && SixDecimals(y) && Millionths(x) == Millionths(y)
    ensures x == y
  {
  }

  /** What validation guarantees of the signed fields. */
  ghost predicate Signable(cmd: Command) {
    OneLine(cmd.action) && cmd.value >= 0.0 && SixDecimals(cmd.value) && cmd.timestampMs > 0 && |cmd.nonce| == 32
  }

  lemma {:induction false} ValidatedIsSignable(cmd: Command, now: Time, audioTarget: string -> bool)
    requires Validates(cmd, now, audioTarget)
    ensures Signable(cmd)
  {
    ActionsAreOneLine(cmd.action);
  }

  /** Commands that pass validation and sign to the same text are the same command, apart from the signature:
      nothing that is executed can be changed without changing what was signed. */
  lemma {:induction false} PayloadInjective(a: Command, b: Command)
    requires Signable(a) && Signable(b) && Payload(a) == Payload(b)
    ensures a.(auth := b.auth) == b
  {
    var va, vb, ta, tb := FormatFixed(a.value), FormatFixed(b.value), FormatInt(a.timestampMs), FormatInt(b.timestampMs);
    var na, nb := Tail(a.nonce, a.target), Tail(b.nonce, b.target);
    PayloadLines(a, va, ta);
    PayloadLines(b, vb, tb);
    FirstLine(a.action, Joined(va, Joined(ta, na)), b.action, Joined(vb, Joined(tb, nb)));
    NumbersAreOneLine(Millionths(a.value), a.timestampMs);
    NumbersAreOneLine(Millionths(b.value), b.timestampMs);
    FirstLine(va, Joined(ta, na), vb, Joined(tb, nb));
    FirstLine(ta, na, tb, nb);
    FixedInjective(Millionths(a.value), Millionths(b.value));
    SameMillionths(a.value, b.value);
    DecimalRoundTrip(a.timestampMs);
    DecimalRoundTrip(b.timestampMs);
    TailInjective(a.nonce, a.target, b.nonce, b.target);
  }

  // ----- reading the signed text

  /** Where the first line of a text ends. */
  function Break(s: string): (k: nat)
    ensures k <= |s|
  {
    if s == "" || s[0] == '\n' then 0 else 1 + Break(s[1..])
  }

  /** The first line of a text, and what follows it. */
  function Cut(s: string): (string, string) {
    var k := Break(s);
    (s[..k], if k < |s| then s[k + 1..] else "")
  }

  lemma {:induction false} BreakOfJoined(a: string, r: string)
    requires OneLine(a)
    ensures Break(Joined(a, r)) == |a|
    decreases |a|
  {
    var s := Joined(a, r);
    if a == "" {
      assert s[0] == '\n';
    } else {
      assert s[1..] == Joined(a[1..], r) && s[0] == a[0];
      BreakOfJoined(a[1..], r);
    }
  }

  lemma {:induction false} CutJoined(a: string, r: string)
    requires OneLine(a)
    ensures Cut(Joined(a, r)) == (a, r)
  {
    BreakOfJoined(a, r);
    var s := Joined(a, r);
    assert s[..|a|] == a && s[|a| + 1..] == r;
  }

  /** The millionths that a text with six decimals denotes. */
  function ReadFixed(s: string): int {
    if |s| < 7 then 0 else Parse(s[..|s| - 7]) * 1000000 + Parse(s[|s| - 6..])
  }

  lemma {:induction false} FixedReadsBack(m: nat)
    ensures ReadFixed(Fixed(m)) == m
  {
    var s, n := Fixed(m), |Fixed(m)| - 7;
    assert s[..n] == Decimal(m / 1000000) && s[n + 1..] == Padded(m % 1000000, 6);
    DecimalRoundTrip(m / 1000000);
    SixDigitsSuffice();
    PaddedRoundTrip(m % 1000000, 6);
  }

  datatype Signed = Signed(action: string, millionths: int, timestampMs: int, nonce: string, target: string)

  /** The fields of a signed text: a line each for action, value and timestamp, then 32 characters of nonce and, on a
      line of its own, the target. */
  function ReadPayload(s: string): Signed {
    var (action, afterAction) := Cut(s);
    var (value, afterValue) := Cut(afterAction);
    var (stamp, rest) := Cut(afterValue);
    Signed(action, ReadFixed(value), Parse(stamp), if |rest| >= 32 then rest[..32] else rest,
           if |rest| > 33 then rest[33..] else "")
  }

  lemma {:induction false} TailReadsBack(nonce: string, target: string)
    requires |nonce| == 32
    ensures var rest := Tail(nonce, target);
            |rest| >= 32 && rest[..32] == nonce && target == if |rest| > 33 then rest[33..] else ""
  {
    assert target != "" ==> Tail(nonce, target)[33..] == target;
  }

  /** The signed text of a validated command reads back as its fields, each in its place. */
  lemma {:induction false} PayloadReadsBack(cmd: Command)
    requires Signable(cmd)
    ensures ReadPayload(Payload(cmd)) == Signed(cmd.action, Millionths(cmd.value), cmd.timestampMs, cmd.nonce, cmd.target)
  {
    var value, stamp, rest := FormatFixed(cmd.value), FormatInt(cmd.timestampMs), Tail(cmd.nonce, cmd.target);
    PayloadLines(cmd, value, stamp);
    NumbersAreOneLine(Millionths(cmd.value), cmd.timestampMs);
    CutJoined(cmd.action, Joined(value, Joined(stamp, rest)));
    CutJoined(value, Joined(stamp, rest));
    CutJoined(stamp, rest);
    FixedReadsBack(Millionths(cmd.value));
    DecimalRoundTrip(cmd.timestampMs);
    TailReadsBack(cmd.nonce, cmd.target);
  }

  // ----- the length-prefixed response

  /** One field: its length, a colon, its bytes. */
  function Field(f: string): string {
    Decimal(|f|) + ":" + f
  }

  function Fields(fields: seq<string>): string {
    if fields == [] then "" else Field(fields[0]) + Fields(fields[1..])
  }

  /** The encoding loop. */
  method EncodeFields(fields: seq<string>) returns (payload: string)
    ensures payload == Fields(fields)
  {
    payload := "";
    for i := 0 to |fields|
      invariant payload + Fields(fields[i..]) == Fields(fields)
    {
      payload := payload + Decimal(|fields[i]|) + ":";
      payload := payload + fields[i];
      assert fields[i..][1..] == fields[i + 1..];
    }
    assert fields[|fields|..] == [];
  }

  datatype Decoded = Malformed | Decoded(fields: seq<string>)

  /** The position of the first colon, or the length. */
  function ColonAt(s: string): (n: nat)
    ensures n <= |s|
  {
    if s == "" || s[0] == ':' then 0 else 1 + ColonAt(s[1..])
  }

  /** A decoder for a given number of fields: it reads only lengths and never searches a field for delimiters. */
  function DecodeFields(s: string, count: nat): Decoded
    decreases count
  {
    if count == 0 then
      if s == "" then Decoded([]) else Malformed
    else
      var n := ColonAt(s);
      if n == |s| || !AllDigits(s[..n]) then Malformed
      else
        var length, rest := Parse(s[..n]), s[n + 1..];
        if length < 0 || length > |rest| then Malformed
        else
          match DecodeFields(rest[length..], count - 1)
          case Malformed => Malformed
          case Decoded(fields) => Decoded([rest[..length]] + fields)
  }

  lemma {:induction false} ColonAfterDigits(d: string, r: string)
    requires AllDigits(d)
    ensures ColonAt(d + ":" + r) == |d|
    decreases |d|
  {
    var s := d + ":" + r;
    if d != "" {
      ColonAfterDigits(d[1..], r);
      assert s[1..] == d[1..] + ":" + r;
    }
  }

  /** Every list of byte strings is recovered, whatever bytes it contains. */
  lemma {:induction false} FieldsRoundTrip(fields: seq<string>)
    ensures DecodeFields(Fields(fields), |fields|) == Decoded(fields)
    decreases |fields|
  {
    if fields != [] {
      var f, more := fields[0], Fields(fields[1..]);
      var d, s := Decimal(|f|), Fields(fields);
      DecimalRoundTrip(|f|);
      ColonAfterDigits(d, f + more);
      assert s == d + ":" + (f + more);
      assert s[..|d|] == d && s[|d| + 1..] == f + more;
      assert (f + more)[..|f|] == f && (f + more)[|f|..] == more;
      FieldsRoundTrip(fields[1..]);
      assert [f] + fields[1..] == fields;
    }
  }

  /** The signed text of a response: request nonce, status, message and data. */
  method ResponsePayload(requestNonce: string, status: string, message: string, dataJson: string) returns (payload: string)
    ensures DecodeFields(payload, 4) == Decoded([requestNonce, status, message, dataJson])
  {
    var fields := [requestNonce, status, message, dataJson];
    payload := EncodeFields(fields);
    FieldsRoundTrip(fields);
  }

  /** Without validation the command text is ambiguous: a line break in the nonce or the target moves
      the end of the nonce. */
  lemma {:induction false} UnvalidatedPayloadsCollide(nonce: string, auth: string)
    requires nonce != ""
    ensures var a := Command("x", 0.0, "\n" + nonce, 1, "", auth);
            var b := Command("x", 0.0, "", 1, "\n\n" + nonce, auth);
            a != b && Payload(a) == Payload(b)
  {
  }
}
