/**
The MP2 command text. The user library prints a line and has the shell echo it into
/proc/mp2/status; mp2_write takes it apart with strsep and sscanf. The bytes behind the line in the
kernel's buffer are whatever was there before: nothing terminates it with a NUL.
*/
module Command {
  import opened Words

  const NUL := '\0'

  // ---------------------------------------------------------------- the printers

  function Digit(n: nat): char
    requires n < 10
  {
    '0' + n as char
  }

  /** %u. */
  function Decimal(n: nat): (s: string)
    ensures |s| > 0 && forall i :: 0 <= i < |s| ==> '0' <= s[i] <= '9'
  {
    if n < 10 then [Digit(n)] else Decimal(n / 10) + [Digit(n % 10)]
  }

  function RegisterLine(pid: nat, period: nat, procTime: nat): string {
    "R, " + Decimal(pid) + ", " + Decimal(period) + ", " + Decimal(procTime)
  }

  function YieldLine(pid: nat): string {
    "Y, " + Decimal(pid)
  }

  function DeregisterLine(pid: nat): string {
    "D, " + Decimal(pid)
  }

  /** The text given to system(). */
  function ShellCommand(line: string): string {
    "echo \"" + line + "\" > /proc/mp2/status"
  }

  /** What echo writes to the file. */
  function Echo(line: string): string {
    line + "\n"
  }

  // ---------------------------------------------------------------- the parser

  /** Text without a separator or terminator in it. */
  ghost predicate Plain(s: string) {
    forall i :: 0 <= i < |s| ==> s[i] != ',' && s[i] != NUL
  }

  /** strsep(&buf, ","): the token, and what is left of buf (NULL when no comma was found). */
  function Strsep(buf: string): (r: (string, Option<string>))
    ensures r.0 <= buf && Plain(r.0)
    ensures r.1.Some? ==> buf == r.0 + "," + r.1.value
    ensures r.1.None? ==> r.0 == buf || buf[|r.0|] == NUL
  {
    if buf == "" || buf[0] == NUL then ("", None)
    else if buf[0] == ',' then ("", Some(buf[1..]))
    else
      var r := Strsep(buf[1..]);
      ([buf[0]] + r.0, r.1)
  }

  predicate IsSpace(c: char) {
    c == ' ' || '\t' <= c <= '\r' || c as int == 160
  }

  function SkipSpaces(s: string): string {
    if s != "" && IsSpace(s[0]) then SkipSpaces(s[1..]) else s
  }

  predicate IsDigit(c: char) {
    '0' <= c <= '9'
  }

  /** The value of the leading digits, continuing from `acc`. */
  function LeadingValue(s: string, acc: nat): nat {
    if s != "" && IsDigit(s[0]) then LeadingValue(s[1..], 10 * acc + (s[0] - '0') as nat) else acc
  }

  /** sscanf of an unsigned number into a variable of the given modulus; None: nothing was stored. */
  function ScanUnsigned(token: string, modulus: nat): Option<nat>
    requires modulus > 0
  {
    var s := SkipSpaces(token);
    if s != "" && IsDigit(s[0]) then Some(LeadingValue(s, 0) % modulus) else None
  }

  /** What a write does. A field None is passed on uninitialised; Oops is a NULL handed to sscanf. */
  datatype Call =
    | Register(pid: Option<nat>, period: Option<nat>, procTime: Option<nat>)
    | Yield(pid: Option<nat>)
    | Deregister(pid: Option<nat>)
    | Nothing
    | Oops

  function Parse(buf: string): Call {
    if buf == "" then Oops
    else if buf[0] == 'R' then
      var op := Strsep(buf);
      if op.1.None? then Oops else
      var pid := Strsep(op.1.value);
      if pid.1.None? then Oops else
      var period := Strsep(pid.1.value);
      if period.1.None? then Oops else
      var procTime := Strsep(period.1.value);
      Register(ScanUnsigned(pid.0, TWO_32), ScanUnsigned(period.0, TWO_64), ScanUnsigned(procTime.0, TWO_64))
    else if buf[0] == 'Y' then
      var op := Strsep(buf);
      if op.1.None? then Oops else Yield(ScanUnsigned(Strsep(op.1.value).0, TWO_32))
    else if buf[0] == 'D' then
      var op := Strsep(buf);
      if op.1.None? then Oops else Deregister(ScanUnsigned(Strsep(op.1.value).0, TWO_32))
    else Nothing
  }

  // ---------------------------------------------------------------- the parser's loops

  method SplitToken(buf: string) returns (token: string, rest: Option<string>)
    ensures (token, rest) == Strsep(buf)
  {
    var i := 0;
    while i < |buf| && buf[i] != NUL && buf[i] != ','
      invariant 0 <= i <= |buf|
      invariant Plain(buf[..i])
    {
      i := i + 1;
    }
    token := buf[..i];
    StrsepPlain(token, buf[i..]);
    assert token + buf[i..] == buf && token + "" == token;
    if i < |buf| && buf[i] == ',' {
      rest := Some(buf[i + 1..]);
      assert buf[i..][1..] == buf[i + 1..];
    } else {
      rest := None;
    }
  }

  method ScanNumber(token: string, modulus: nat) returns (r: Option<nat>)
    requires modulus > 0
    ensures r == ScanUnsigned(token, modulus)
  {
    var i := 0;
    while i < |token| && IsSpace(token[i])
      invariant 0 <= i <= |token|
      invariant SkipSpaces(token) == SkipSpaces(token[i..])
    {
      assert token[i..][1..] == token[i + 1..];
      i := i + 1;
    }
    ghost var digits := token[i..];
    if i == |token| || !IsDigit(token[i]) {
      return None;
    }
    var value: nat := 0;
    while i < |token| && IsDigit(token[i])
      invariant 0 <= i <= |token|
      invariant LeadingValue(digits, 0) == LeadingValue(token[i..], value)
    {
      assert token[i..][1..] == token[i + 1..];
      value := 10 * value + (token[i] - '0') as nat;
      i := i + 1;
    }
    return Some(value % modulus);
  }

  /** mp2_write up to the call it makes; buf starts with the bytes written. */
  method Write(buf: string) returns (call: Call)
    ensures call == Parse(buf)
  {
    if buf == "" {
      return Oops;
    }
    var op := buf[0];
    if op != 'R' && op != 'Y' && op != 'D' {
      return Nothing;
    }
    var token, rest := SplitToken(buf);
    if rest.None? {
      return Oops;
    }
    token, rest := SplitToken(rest.value);
    var pid := ScanNumber(token, TWO_32);
    if op == 'Y' {
      return Yield(pid);
    }
    if op == 'D' {
      return Deregister(pid);
    }
    if rest.None? {
      return Oops;
    }
    token, rest := SplitToken(rest.value);
    var period := ScanNumber(token, TWO_64);
    if rest.None? {
      return Oops;
    }
    token, rest := SplitToken(rest.value);
    var procTime := ScanNumber(token, TWO_64);
    return Register(pid, period, procTime);
  }

  // ---------------------------------------------------------------- round trip

  lemma HeadTail(a: string, b: string)
    requires a != ""
    ensures [a[0]] + (a[1..] + b) == a + b
  {
  }

  lemma {:induction false} StrsepPlain(a: string, b: string)
    requires Plain(a)
    ensures Strsep(a + b) == (a + Strsep(b).0, Strsep(b).1)
  {
    var rest := Strsep(b).0;
    if a == "" {
      assert a + b == b;
      assert a + rest == rest;
    } else {
      assert (a + b)[1..] == a[1..] + b;
      StrsepPlain(a[1..], b);
      HeadTail(a, rest);
    }
  }

  lemma StrsepField(a: string, b: string)
    requires Plain(a)
    ensures Strsep(a + "," + b) == (a, Some(b))
  {
    assert a + "," + b == a + ("," + b);
    StrsepPlain(a, "," + b);
    assert ("," + b)[1..] == b;
    assert a + "" == a;
  }

  /** A token that opens with a space and a number, followed by anything but a digit. */
  lemma ScanField(n: nat, rest: string, modulus: nat)
    requires modulus > 0 && n < modulus
    requires rest == "" || !IsDigit(rest[0])
    ensures ScanUnsigned(" " + Decimal(n) + rest, modulus) == Some(n)
  {
    var number := Decimal(n) + rest;
    var token := " " + Decimal(n) + rest;
    assert number[0] == Decimal(n)[0] && IsDigit(number[0]);
    SkipOne(token, number);
    LeadingDecimal(n, rest);
    SmallRemainder(n, modulus);
  }

  lemma SmallRemainder(n: nat, modulus: nat)
    requires n < modulus
    ensures n % modulus == n
  {
  }

  lemma SkipOne(token: string, number: string)
    requires token == " " + number && number != "" && IsDigit(number[0])
    ensures SkipSpaces(token) == number
  {
    assert token[1..] == number;
    assert SkipSpaces(number) == number;
  }

  function Power10(k: nat): nat {
    if k == 0 then 1 else 10 * Power10(k - 1)
  }

  lemma {:induction false} LeadingDigits(a: string, b: string, acc: nat)
    requires forall i :: 0 <= i < |a| ==> IsDigit(a[i])
    ensures LeadingValue(a + b, acc) == LeadingValue(b, LeadingValue(a, acc))
  {
    if a == "" {
      assert a + b == b;
    } else {
      assert (a + b)[1..] == a[1..] + b;
      LeadingDigits(a[1..], b, 10 * acc + (a[0] - '0') as nat);
    }
  }

  lemma {:induction false} LeadingDecimal(n: nat, rest: string)
    requires rest == "" || !IsDigit(rest[0])
    ensures LeadingValue(Decimal(n) + rest, 0) == n
    decreases n
  {
    LeadingDigits(Decimal(n), rest, 0);
    if n >= 10 {
      LeadingDecimal(n / 10, "");
      assert Decimal(n / 10) + "" == Decimal(n / 10);
      LeadingDigits(Decimal(n / 10), [Digit(n % 10)], 0);
    }
  }

  lemma FieldIsPlain(n: nat)
    ensures Plain(" " + Decimal(n)) && Plain(" " + Decimal(n) + "\n")
  {
  }

  lemma Associate(a: string, b: string, c: string)
    ensures a + b + c == a + (b + c)
  {
  }

  /** The last field of a line: the newline ends the number, whatever follows it. */
  lemma LastField(n: nat, junk: string, modulus: nat)
    requires modulus > 0 && n < modulus
    ensures ScanUnsigned(Strsep(" " + Decimal(n) + "\n" + junk).0, modulus) == Some(n)
  {
    FieldIsPlain(n);
    var field := " " + Decimal(n) + "\n";
    StrsepPlain(field, junk);
    Associate(" " + Decimal(n), "\n", Strsep(junk).0);
    ScanField(n, "\n" + Strsep(junk).0, modulus);
  }

  /** An inner field: the comma ends it. */
  lemma InnerField(n: nat, after: string, modulus: nat)
    requires modulus > 0 && n < modulus
    ensures Strsep(" " + Decimal(n) + "," + after) == (" " + Decimal(n), Some(after))
    ensures ScanUnsigned(" " + Decimal(n), modulus) == Some(n)
  {
    FieldIsPlain(n);
    StrsepField(" " + Decimal(n), after);
    assert " " + Decimal(n) + "" == " " + Decimal(n);
    ScanField(n, "", modulus);
  }

  lemma YieldRoundTrip(pid: nat, junk: string)
    requires pid < TWO_32
    ensures Parse(Echo(YieldLine(pid)) + junk) == Yield(Some(pid))
  {
    var rest := " " + Decimal(pid) + "\n" + junk;
    assert Echo(YieldLine(pid)) + junk == "Y" + "," + rest;
    StrsepField("Y", rest);
    LastField(pid, junk, TWO_32);
  }

  lemma DeregisterRoundTrip(pid: nat, junk: string)
    requires pid < TWO_32
    ensures Parse(Echo(DeregisterLine(pid)) + junk) == Deregister(Some(pid))
  {
    var rest := " " + Decimal(pid) + "\n" + junk;
    assert Echo(DeregisterLine(pid)) + junk == "D" + "," + rest;
    StrsepField("D", rest);
    LastField(pid, junk, TWO_32);
  }

  /**
  Round trip: for a 32-bit pid and any 64-bit numbers, the kernel recovers from the echoed line exactly
  the operation and the numbers that were printed, whatever bytes follow the newline.
  */
  lemma RegisterRoundTrip(pid: nat, period: nat, procTime: nat, junk: string)
    requires pid < TWO_32 && period < TWO_64 && procTime < TWO_64
    ensures Parse(Echo(RegisterLine(pid, period, procTime)) + junk)
            == Register(Some(pid), Some(period), Some(procTime))
  {
    var last := " " + Decimal(procTime) + "\n" + junk;
    var third := " " + Decimal(period) + "," + last;
    var second := " " + Decimal(pid) + "," + third;
    assert Echo(RegisterLine(pid, period, procTime)) + junk == "R" + "," + second;
    StrsepField("R", second);
    InnerField(pid, third, TWO_32);
    InnerField(period, last, TWO_64);
    LastField(procTime, junk, TWO_64);
  }

  // ---------------------------------------------------------------- every other line

  /** Where a token ends: at a comma, at a NUL, or with the text. */
  predicate EndsToken(tail: string) {
    tail == "" || tail[0] == NUL || tail[0] == ','
  }

  predicate EndsText(tail: string) {
    tail == "" || tail[0] == NUL
  }

  lemma StrsepEnd(a: string, tail: string)
    requires Plain(a) && EndsToken(tail)
    ensures Strsep(a + tail).0 == a
    ensures EndsText(tail) ==> Strsep(a + tail).1 == None
  {
    StrsepPlain(a, tail);
    assert a + "" == a;
  }

  lemma FirstOfText(a: string, b: string)
    requires a != ""
    ensures a + b != "" && (a + b)[0] == a[0]
  {
  }

  /** A line of two fields or more that begins with Y or D, whatever else is in its first field. */
  lemma ShortCommand(op: string, pid: string, tail: string)
    requires op != "" && Plain(op) && Plain(pid) && EndsToken(tail)
    ensures op[0] == 'Y' ==> Parse(op + "," + (pid + tail)) == Yield(ScanUnsigned(pid, TWO_32))
    ensures op[0] == 'D' ==> Parse(op + "," + (pid + tail)) == Deregister(ScanUnsigned(pid, TWO_32))
  {
    StrsepField(op, pid + tail);
    StrsepEnd(pid, tail);
    FirstOfText(op + ",", pid + tail);
  }

  /** A line of four fields or more that begins with R. */
  lemma LongCommand(op: string, pid: string, period: string, procTime: string, tail: string)
    requires op != "" && op[0] == 'R' && Plain(op) && Plain(pid) && Plain(period) && Plain(procTime) && EndsToken(tail)
    ensures Parse(op + "," + (pid + "," + (period + "," + (procTime + tail))))
            == Register(ScanUnsigned(pid, TWO_32), ScanUnsigned(period, TWO_64), ScanUnsigned(procTime, TWO_64))
  {
    StrsepField(op, pid + "," + (period + "," + (procTime + tail)));
    StrsepField(pid, period + "," + (procTime + tail));
    StrsepField(period, procTime + tail);
    StrsepEnd(procTime, tail);
    FirstOfText(op + ",", pid + "," + (period + "," + (procTime + tail)));
  }

  /** Fewer fields than the command takes: a NULL reaches sscanf. */
  lemma MissingFields(op: string, pid: string, period: string, tail: string)
    requires op != "" && op[0] in "RYD" && Plain(op) && Plain(pid) && Plain(period) && EndsText(tail)
    ensures Parse(op + tail) == Oops
    ensures op[0] == 'R' ==> Parse(op + "," + (pid + tail)) == Oops
    ensures op[0] == 'R' ==> Parse(op + "," + (pid + "," + (period + tail))) == Oops
  {
    FirstOfText(op, tail);
    FirstOfText(op + ",", pid + tail);
    FirstOfText(op + ",", pid + "," + (period + tail));
    StrsepEnd(op, tail);
    StrsepField(op, pid + tail);
    StrsepEnd(pid, tail);
    StrsepField(op, pid + "," + (period + tail));
    StrsepField(pid, period + tail);
    StrsepEnd(period, tail);
  }

  /** Any other first character makes no call. */
  lemma OtherCommand(buf: string)
    requires buf != "" && buf[0] !in "RYD"
    ensures Parse(buf) == Nothing
  {
  }

  predicate Digits(s: string) {
    forall i :: 0 <= i < |s| ==> '0' <= s[i] <= '9'
  }

  /** isspace of the kernel: space, the controls from tab to carriage return, and 0xA0. */
  predicate Blanks(s: string) {
    forall i :: 0 <= i < |s| ==> s[i] == ' ' || '\t' <= s[i] <= '\r' || s[i] as int == 160
  }

  /** The value of decimal digits, by place from the right. */
  function Value(digits: string): nat
    requires Digits(digits)
  {
    if digits == "" then 0 else 10 * Value(digits[..|digits| - 1]) + (digits[|digits| - 1] - '0') as nat
  }

  lemma {:induction false} LeadingIsValue(digits: string)
    requires Digits(digits)
    ensures LeadingValue(digits, 0) == Value(digits)
  {
    if digits != "" {
      var init, last := digits[..|digits| - 1], digits[|digits| - 1..];
      assert digits == init + last;
      LeadingIsValue(init);
      LeadingDigits(init, last, 0);
    }
  }

  lemma {:induction false} SkipBlanks(blanks: string, rest: string)
    requires Blanks(blanks)
    requires rest == "" || !IsSpace(rest[0])
    ensures SkipSpaces(blanks + rest) == rest
  {
    if blanks == "" {
      assert blanks + rest == rest;
    } else {
      assert (blanks + rest)[1..] == blanks[1..] + rest;
      SkipBlanks(blanks[1..], rest);
    }
  }

  /** A number after any blanks, up to the first character that is no digit, reduced to the variable's width. */
  lemma ScanExactly(blanks: string, digits: string, rest: string, modulus: nat)
    requires modulus > 0 && digits != "" && Digits(digits)
    requires Blanks(blanks)
    requires rest == "" || !('0' <= rest[0] <= '9')
    ensures ScanUnsigned(blanks + (digits + rest), modulus) == Some(Value(digits) % modulus)
  {
    FirstOfText(digits, rest);
    assert IsDigit(digits[0]);
    SkipBlanks(blanks, digits + rest);
    LeadingDigits(digits, rest, 0);
    LeadingIsValue(digits);
  }

  /** Anything but a digit behind the blanks: nothing is stored. */
  lemma ScanNothing(blanks: string, rest: string, modulus: nat)
    requires modulus > 0 && Blanks(blanks)
    requires rest == "" || !(rest[0] == ' ' || '\t' <= rest[0] <= '\r' || rest[0] as int == 160 || '0' <= rest[0] <= '9')
    ensures ScanUnsigned(blanks + rest, modulus) == None
  {
    SkipBlanks(blanks, rest);
  }

  lemma {:induction false} DecimalLength(n: nat, k: nat)
    requires k > 0 && n < Power10(k)
    ensures |Decimal(n)| <= k
  {
    if n >= 10 {
      DecimalLength(n / 10, k - 1);
    }
  }

  /** sprintf never overruns the 100-byte command buffer, terminating NUL included. */
  lemma CommandFits(pid: nat, period: nat, procTime: nat)
    requires pid < TWO_32 && period < TWO_32 && procTime < TWO_32
    ensures |ShellCommand(RegisterLine(pid, period, procTime))| < 100
    ensures |ShellCommand(YieldLine(pid))| < 100 && |ShellCommand(DeregisterLine(pid))| < 100
  {
    assert Power10(10) == 10_000_000_000;
    DecimalLength(pid, 10);
    DecimalLength(period, 10);
    DecimalLength(procTime, 10);
  }
}
