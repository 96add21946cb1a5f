/** The FIFO broker's text protocol: inbound records `<fifo>:<VERB> a b`, outbound
    replies `<VERB> a b`, and the Python string operations they are parsed with. */
module Wire {
  import opened Inventory
  import Config

  // ---------------------------------------------------------------------
  // Python whitespace, strip() and split()
  // ---------------------------------------------------------------------

  /** The characters Python's str.split() and str.strip() treat as whitespace. */
  predicate IsSpace(c: char) {
    c in {' ', '\t', '\n', '\r', '\U{B}', '\U{C}', '\U{1C}', '\U{1D}', '\U{1E}', '\U{1F}',
          '\U{85}', '\U{A0}', '\U{1680}', '\U{2028}', '\U{2029}', '\U{202F}', '\U{205F}', '\U{3000}'} ||
    ('\U{2000}' <= c <= '\U{200A}')
  }

  predicate NoSpace(s: string) {
    forall i :: 0 <= i < |s| ==> !IsSpace(s[i])
  }

  /** s without its leading whitespace; always a suffix of s, and only whitespace is removed. */
  function TrimLeft(s: string): (r: string)
    ensures |r| <= |s| && r == s[|s| - |r|..]
    ensures r != [] ==> !IsSpace(r[0])
    ensures forall k :: 0 <= k < |s| - |r| ==> IsSpace(s[k])
    decreases |s|
  {
    if s == [] then []
    else if IsSpace(s[0]) then TrimLeft(s[1..])
    else s
  }

  /** s without its trailing whitespace; always a prefix of s, and only whitespace is removed. */
  function TrimRight(s: string): (r: string)
    ensures |r| <= |s| && r == s[..|r|]
    ensures r != [] ==> !IsSpace(r[|r| - 1])
    ensures forall k :: |r| <= k < |s| ==> IsSpace(s[k])
    decreases |s|
  {
    if s == [] then []
    else if IsSpace(s[|s| - 1]) then TrimRight(s[..|s| - 1])
    else s
  }

  /** Python's s.strip(). */
  function Strip(s: string): string {
    TrimRight(TrimLeft(s))
  }

  /** Length of the run of non-whitespace characters at the start of s. */
  function WordLen(s: string): (n: nat)
    ensures n <= |s|
    ensures forall k :: 0 <= k < n ==> !IsSpace(s[k])
    ensures n < |s| ==> IsSpace(s[n])
    decreases |s|
  {
    if s == [] || IsSpace(s[0]) then 0 else 1 + WordLen(s[1..])
  }

  /** Python's s.split() with no arguments: the maximal whitespace-free runs. */
  function Tokens(s: string): seq<string>
    decreases |s|
  {
    if s == [] then []
    else if IsSpace(s[0]) then Tokens(s[1..])
    else [s[..WordLen(s)]] + Tokens(s[WordLen(s)..])
  }

  /** Python's s.split(":", 1): the parts before and after the first colon. */
  function SplitAtColon(s: string): (r: Option<(string, string)>)
    ensures r.Some? ==> s == r.value.0 + [':'] + r.value.1 && ':' !in r.value.0
    ensures r.None? ==> ':' !in s
    decreases |s|
  {
    if s == [] then None
    else if s[0] == ':' then Some(([], s[1..]))
    else match SplitAtColon(s[1..])
      case None => None
      case Some(p) => Some(([s[0]] + p.0, p.1))
  }

  // ---------------------------------------------------------------------
  // Python int() and str() on integers
  // ---------------------------------------------------------------------

  predicate IsDigit(c: char) {
    '0' <= c <= '9'
  }

  /** A decimal literal as int() accepts it: digits, with single underscores
      allowed between digits. */
  predicate DigitGroups(s: string) {
    |s| > 0 && IsDigit(s[0]) && IsDigit(s[|s| - 1]) &&
    (forall i :: 0 <= i < |s| ==> IsDigit(s[i]) || s[i] == '_') &&
    (forall i :: 0 <= i < |s| - 1 ==> s[i] == '_' ==> IsDigit(s[i + 1]))
  }

  /** Value of a digit string, underscores skipped. */
  function DigitsValue(s: string): nat
    decreases |s|
  {
    if s == [] then 0
    else if IsDigit(s[|s| - 1]) then 10 * DigitsValue(s[..|s| - 1]) + (s[|s| - 1] as int - '0' as int)
    else DigitsValue(s[..|s| - 1])
  }

  /** How many decimal digits `s` holds; signs and underscores are not digits. */
  function DigitCount(s: string): (r: nat)
    ensures r <= |s|
    ensures r == |s| <==> forall k :: 0 <= k < |s| ==> IsDigit(s[k])
  {
    if s == [] then 0 else (if IsDigit(s[0]) then 1 else 0) + DigitCount(s[1..])
  }

  /** The outline every token int() accepts has: a sign or digit first, a digit last,
      and only digits and underscores after the first character. */
  predicate NumeralShape(s: string) {
    |s| > 0 && (IsDigit(s[0]) || s[0] == '-' || s[0] == '+') && IsDigit(s[|s| - 1]) &&
    forall k :: 0 < k < |s| ==> IsDigit(s[k]) || s[k] == '_'
  }

  /** str(n) succeeds: n has at most Config.MaxIntDigits decimal digits. */
  predicate Printable(n: int) {
    DigitCount(FormatInt(n)) <= Config.MaxIntDigits
  }

  /** Python's int(s) on a whitespace-free token; None where int() raises ValueError,
      which includes a numeral of more than Config.MaxIntDigits digits. */
  function ParseInt(s: string): (r: Option<int>)
    ensures r.Some? ==> NumeralShape(s)
    ensures r.Some? ==> forall k :: 0 <= k < |s| - 1 && s[k] == '_' ==> IsDigit(s[k + 1])
    ensures r.Some? && r.value < 0 ==> s[0] == '-'
    ensures r.Some? ==> DigitCount(s) <= Config.MaxIntDigits
    ensures s != [] && (forall k :: 0 <= k < |s| ==> IsDigit(s[k])) && |s| <= Config.MaxIntDigits
            ==> r == Some(DigitsValue(s))
  {
    if |s| > 0 && s[0] == '-' then
      (if DigitGroups(s[1..]) && DigitCount(s[1..]) <= Config.MaxIntDigits
       then Some(0 - DigitsValue(s[1..]) as int) else None)
    else if |s| > 0 && s[0] == '+' then
      (if DigitGroups(s[1..]) && DigitCount(s[1..]) <= Config.MaxIntDigits
       then Some(DigitsValue(s[1..])) else None)
    else if DigitGroups(s) && DigitCount(s) <= Config.MaxIntDigits then Some(DigitsValue(s))
    else None
  }

  function DigitChar(d: int): char
    requires 0 <= d < 10
  {
    ('0' as int + d) as char
  }

  /** Decimal rendering of a natural number, most significant digit first. */
  function FormatNat(n: nat): string
    decreases n
  {
    if n < 10 then [DigitChar(n)] else FormatNat(n / 10) + [DigitChar(n % 10)]
  }

  /** Python's str(n) for an integer. */
  function FormatInt(n: int): string {
    if n < 0 then "-" + FormatNat(-n) else FormatNat(n)
  }

  /** A rendered natural number is a plain digit string with that value. */
  lemma {:induction false} FormatNatDigits(n: nat)
    ensures DigitGroups(FormatNat(n))
    ensures forall i :: 0 <= i < |FormatNat(n)| ==> IsDigit(FormatNat(n)[i])
    ensures DigitsValue(FormatNat(n)) == n
  {
    if n >= 10 {
      FormatNatDigits(n / 10);
      var s := FormatNat(n);
      assert s[..|s| - 1] == FormatNat(n / 10);
    }
  }

  /** A rendered integer is whitespace- and colon-free and non-empty. */
  lemma FormatIntWord(n: int)
    ensures FormatInt(n) != [] && NoSpace(FormatInt(n)) && ':' !in FormatInt(n)
  {
    var m: nat := if n < 0 then -n else n;
    var d := FormatNat(m);
    FormatNatDigits(m);
    forall i | 0 <= i < |d| ensures !IsSpace(d[i]) && d[i] != ':' {
      DigitIsPlain(d[i]);
    }
    if n < 0 {
      var r := FormatInt(n);
      assert r == "-" + d;
      forall i | 0 <= i < |r| ensures !IsSpace(r[i]) && r[i] != ':' {
        if i > 0 { assert r[i] == d[i - 1]; }
      }
    }
  }

  function Pow10(k: nat): nat {
    if k == 0 then 1 else 10 * Pow10(k - 1)
  }

  /** A natural number below 10^k has at most k decimal digits. */
  lemma {:induction false} FormatNatLength(n: nat, k: nat)
    requires 1 <= k && n < Pow10(k)
    ensures |FormatNat(n)| <= k
    decreases k
  {
    if n >= 10 {
      assert k >= 2;
      assert n / 10 < Pow10(k - 1);
      FormatNatLength(n / 10, k - 1);
    }
  }

  /** str(n) succeeds for every n whose magnitude is below 10^k, when k is within the limit. */
  lemma PrintableBelow(n: int, k: nat)
    requires 1 <= k <= Config.MaxIntDigits
    requires (if n < 0 then -n else n) < Pow10(k)
    ensures Printable(n)
  {
    var m: nat := if n < 0 then -n else n;
    FormatNatLength(m, k);
    if n < 0 {
      assert FormatInt(n)[1..] == FormatNat(m);
    }
  }

  /** A digit is neither whitespace nor a colon. */
  lemma DigitIsPlain(c: char)
    requires IsDigit(c)
    ensures !IsSpace(c) && c != ':'
  {
  }

  /** int(str(n)) == n, for every n whose decimal form is within the digit limit
      (beyond it str(n) itself raises ValueError). */
  lemma IntRoundTrip(n: int)
    requires Printable(n)
    ensures ParseInt(FormatInt(n)) == Some(n)
  {
    var m: nat := if n < 0 then -n else n;
    FormatNatDigits(m);
    if n < 0 {
      NegatedParses(FormatNat(m));
    } else {
      NumeralParses(FormatNat(m));
    }
  }

  /** A digit string within the limit reads as its value. */
  lemma NumeralParses(d: string)
    requires DigitGroups(d) && DigitCount(d) <= Config.MaxIntDigits
    ensures ParseInt(d) == Some(DigitsValue(d))
  {
    assert d[0] != '-' && d[0] != '+';
  }

  /** A digit string within the limit, after a minus, reads as the negated value. */
  lemma NegatedParses(d: string)
    requires DigitGroups(d) && DigitCount(d) <= Config.MaxIntDigits
    ensures ParseInt("-" + d) == Some(0 - DigitsValue(d))
  {
    var s := "-" + d;
    assert s[0] == '-' && s[1..] == d;
  }

  // ---------------------------------------------------------------------
  // Records
  // ---------------------------------------------------------------------

  /** What follows the address of an inbound record. */
  datatype Body =
    | RequestSeat(size: int, customer: string)
    | CustomerDone(size: int, table: int)
    | UnknownVerb(verb: string)

  /** The broker's reading of one inbound line. `Blank`, `NoAddress` and `Incomplete`
      lines are skipped; `BadNumber` is a numeric field int() refuses, whose exception
      ends the broker loop. */
  datatype Record =
    | Blank
    | NoAddress
    | Incomplete
    | BadNumber
    | Message(replyTo: string, body: Body)

  /** Parse one line as read from the inbound FIFO. */
  function ParseRecord(line: string): Record {
    var s := Strip(line);
    if s == [] then Blank
    else match SplitAtColon(s)
      case None => NoAddress
      case Some(parts) =>
        var tokens := Tokens(parts.1);
        if |tokens| < 3 then Incomplete else ParseFields(Strip(parts.0), tokens)
  }

  /** Read the verb and the two numeric or text fields of a record with at least three tokens. */
  function ParseFields(replyTo: string, tokens: seq<string>): Record
    requires |tokens| >= 3
  {
    if tokens[0] == "REQUEST_SEAT" then
      match ParseInt(tokens[1])
      case None => BadNumber
      case Some(g) => Message(replyTo, RequestSeat(g, tokens[2]))
    else if tokens[0] == "CUSTOMER_DONE" then
      match ParseInt(tokens[1])
      case None => BadNumber
      case Some(g) =>
        match ParseInt(tokens[2])
        case None => BadNumber
        case Some(id) => Message(replyTo, CustomerDone(g, id))
    else Message(replyTo, UnknownVerb(tokens[0]))
  }

  /** A reply sent on a customer's private FIFO. */
  datatype Reply =
    | Leave(size: int, customer: string)
    | Seated(size: int, table: int)
    | Rejected(size: int, customer: string)

  /** `<verb> <a> <b>` and a newline. */
  function ReplyLine(verb: string, a: string, b: string): string {
    verb + " " + a + " " + b + "\n"
  }

  /** `<fifo>:<verb> <a> <b>` and a newline, as a customer writes it to the inbound FIFO. */
  function RecordLine(fifo: string, verb: string, a: string, b: string): string {
    fifo + ":" + (verb + " " + a + " " + b) + "\n"
  }

  /** The line the broker writes for a reply. */
  function Render(r: Reply): string {
    match r
    case Leave(g, c) => ReplyLine("LEAVE", FormatInt(g), c)
    case Seated(g, t) => ReplyLine("SEATED", FormatInt(g), FormatInt(t))
    case Rejected(g, c) => ReplyLine("REJECTED", FormatInt(g), c)
  }

  // ---------------------------------------------------------------------
  // Parsing lemmas
  // ---------------------------------------------------------------------

  lemma {:induction false} WordLenOfWord(w: string, rest: string)
    requires NoSpace(w)
    requires rest == [] || IsSpace(rest[0])
    ensures WordLen(w + rest) == |w|
    decreases |w|
  {
    if w != [] {
      assert (w + rest)[1..] == w[1..] + rest;
      WordLenOfWord(w[1..], rest);
    }
  }

  /** A word followed by whitespace or nothing is split off as one token. */
  lemma TokensOfWord(w: string, rest: string)
    requires w != [] && NoSpace(w)
    requires rest == [] || IsSpace(rest[0])
    ensures Tokens(w + rest) == [w] + Tokens(rest)
  {
    WordLenOfWord(w, rest);
    assert (w + rest)[..|w|] == w;
    assert (w + rest)[|w|..] == rest;
  }

  lemma TokensSkipSpace(rest: string)
    ensures Tokens(" " + rest) == Tokens(rest)
  {
    assert (" " + rest)[1..] == rest;
  }

  /** Three words separated by single spaces, followed by whitespace only, are three tokens. */
  lemma TokensOfThree(a: string, b: string, c: string, tail: string)
    requires a != [] && NoSpace(a) && b != [] && NoSpace(b) && c != [] && NoSpace(c)
    requires tail == [] || tail == "\n"
    ensures Tokens(a + " " + b + " " + c + tail) == [a, b, c]
  {
    assert Tokens(tail) == [] by {
      if tail != [] { assert tail[1..] == []; }
    }
    var r3 := c + tail;
    TokensOfWord(c, tail);
    var r2 := " " + r3;
    TokensSkipSpace(r3);
    var r1 := b + r2;
    TokensOfWord(b, r2);
    var r0 := " " + r1;
    TokensSkipSpace(r1);
    TokensOfWord(a, r0);
    Append(a + " " + b + " ", c, tail);
    Append(a + " " + b, " ", r3);
    Append(a + " ", b, r2);
    Append(a, " ", r1);
  }

  /** strip() of a line whose content starts and ends with non-whitespace and which
      ends with a newline is that content. */
  lemma StripLine(body: string)
    requires body != [] && !IsSpace(body[0]) && !IsSpace(body[|body| - 1])
    ensures Strip(body + "\n") == body
  {
    var line := body + "\n";
    assert line[0] == body[0];
    assert TrimLeft(line) == line;
    assert line[|line| - 1] == '\n';
    assert line[..|line| - 1] == body;
    assert TrimRight(body) == body;
  }

  /** strip() of `<fifo>:<msg>` and a newline is `<fifo>:<msg>` when the address has no
      leading whitespace and the message no trailing whitespace. */
  lemma AddressedLine(fifo: string, msg: string)
    requires NoSpace(fifo)
    requires msg != [] && !IsSpace(msg[|msg| - 1])
    ensures Strip(fifo + ":" + msg + "\n") == fifo + ":" + msg
  {
    var body := fifo + ":" + msg;
    assert body[|body| - 1] == msg[|msg| - 1];
    assert body[0] == if fifo == [] then ':' else fifo[0];
    StripLine(body);
  }

  lemma StripWord(w: string)
    requires NoSpace(w)
    ensures Strip(w) == w
  {
  }

  lemma {:induction false} ColonSplit(a: string, b: string)
    requires ':' !in a
    ensures SplitAtColon(a + ":" + b) == Some((a, b))
    decreases |a|
  {
    if a == [] {
      assert a + ":" + b == [':'] + b;
    } else {
      assert (a + ":" + b)[1..] == a[1..] + ":" + b;
      ColonSplit(a[1..], b);
      assert [a[0]] + a[1..] == a;
    }
  }

  /** The record `<fifo>:<verb> <a> <b>` followed by a newline splits into the address
      and three tokens. */
  lemma RecordFields(fifo: string, verb: string, a: string, b: string)
    requires NoSpace(fifo) && ':' !in fifo
    requires verb != [] && NoSpace(verb) && a != [] && NoSpace(a) && b != [] && NoSpace(b)
    ensures var msg := verb + " " + a + " " + b;
      Strip(RecordLine(fifo, verb, a, b)) == fifo + ":" + msg &&
      SplitAtColon(fifo + ":" + msg) == Some((fifo, msg)) &&
      Strip(fifo) == fifo &&
      Tokens(msg) == [verb, a, b]
  {
    var msg := verb + " " + a + " " + b;
    RecordStrip(fifo, verb, a, b);
    ColonSplit(fifo, msg);
    StripWord(fifo);
    FieldTokens(verb, a, b);
  }

  lemma RecordStrip(fifo: string, verb: string, a: string, b: string)
    requires NoSpace(fifo) && b != [] && NoSpace(b)
    ensures Strip(RecordLine(fifo, verb, a, b)) == fifo + ":" + (verb + " " + a + " " + b)
  {
    var msg := verb + " " + a + " " + b;
    assert msg[|msg| - 1] == b[|b| - 1];
    AddressedLine(fifo, msg);
  }

  lemma FieldTokens(verb: string, a: string, b: string)
    requires verb != [] && NoSpace(verb) && a != [] && NoSpace(a) && b != [] && NoSpace(b)
    ensures Tokens(verb + " " + a + " " + b) == [verb, a, b]
  {
    TokensOfThree(verb, a, b, []);
    assert verb + " " + a + " " + b + [] == verb + " " + a + " " + b;
  }

  /** A well-formed record line is read from its address and its three tokens. */
  lemma RecordParsed(fifo: string, verb: string, a: string, b: string)
    requires NoSpace(fifo) && ':' !in fifo
    requires verb != [] && NoSpace(verb) && a != [] && NoSpace(a) && b != [] && NoSpace(b)
    ensures ParseRecord(RecordLine(fifo, verb, a, b)) == ParseFields(fifo, [verb, a, b])
  {
    RecordFields(fifo, verb, a, b);
    var body := fifo + ":" + (verb + " " + a + " " + b);
    assert Strip(RecordLine(fifo, verb, a, b)) == body;
    assert body != [];
  }

  /** A seat request as a customer writes it parses back to that request. */
  lemma RequestRoundTrip(fifo: string, g: int, customer: string)
    requires NoSpace(fifo) && ':' !in fifo
    requires Printable(g)
    requires customer != [] && NoSpace(customer)
    ensures ParseRecord(RecordLine(fifo, "REQUEST_SEAT", FormatInt(g), customer))
         == Message(fifo, RequestSeat(g, customer))
  {
    FormatIntWord(g);
    IntRoundTrip(g);
    RequestParsed(fifo, FormatInt(g), g, customer);
  }

  lemma RequestParsed(fifo: string, size: string, g: int, customer: string)
    requires NoSpace(fifo) && ':' !in fifo
    requires size != [] && NoSpace(size) && ParseInt(size) == Some(g)
    requires customer != [] && NoSpace(customer)
    ensures ParseRecord(RecordLine(fifo, "REQUEST_SEAT", size, customer))
         == Message(fifo, RequestSeat(g, customer))
  {
    RecordParsed(fifo, "REQUEST_SEAT", size, customer);
  }

  lemma DoneParsed(fifo: string, size: string, g: int, id: string, table: int)
    requires NoSpace(fifo) && ':' !in fifo
    requires size != [] && NoSpace(size) && ParseInt(size) == Some(g)
    requires id != [] && NoSpace(id) && ParseInt(id) == Some(table)
    ensures ParseRecord(RecordLine(fifo, "CUSTOMER_DONE", size, id))
         == Message(fifo, CustomerDone(g, table))
  {
    RecordParsed(fifo, "CUSTOMER_DONE", size, id);
    DoneFields(fifo, size, g, id, table);
  }

  lemma DoneFields(fifo: string, size: string, g: int, id: string, table: int)
    requires ParseInt(size) == Some(g) && ParseInt(id) == Some(table)
    ensures ParseFields(fifo, ["CUSTOMER_DONE", size, id]) == Message(fifo, CustomerDone(g, table))
  {
    assert "CUSTOMER_DONE"[0] != "REQUEST_SEAT"[0];
  }

  /** A SEATED reply carries the table id as its third token, and the CUSTOMER_DONE
      record a customer builds from that token parses back to the same size and table. */
  lemma DoneRoundTrip(fifo: string, g: int, table: int)
    requires NoSpace(fifo) && ':' !in fifo
    requires Printable(g)
    requires Printable(table)
    ensures Tokens(Render(Seated(g, table))) == ["SEATED", FormatInt(g), FormatInt(table)]
    ensures ParseRecord(RecordLine(fifo, "CUSTOMER_DONE", FormatInt(g), Tokens(Render(Seated(g, table)))[2]))
         == Message(fifo, CustomerDone(g, table))
  {
    SeatedTokens(g, table);
    IntRoundTrip(g);
    IntRoundTrip(table);
    DoneParsed(fifo, FormatInt(g), g, FormatInt(table), table);
  }

  lemma SeatedTokens(g: int, table: int)
    ensures FormatInt(g) != [] && NoSpace(FormatInt(g))
    ensures FormatInt(table) != [] && NoSpace(FormatInt(table))
    ensures Tokens(Render(Seated(g, table))) == ["SEATED", FormatInt(g), FormatInt(table)]
  {
    FormatIntWord(g);
    FormatIntWord(table);
    TokensOfThree("SEATED", FormatInt(g), FormatInt(table), "\n");
  }

  /** A request whose size field is not shaped like a numeral (`2x`, `1.5`, `-`, `1_`,
      `x1`) is read as BadNumber. */
  lemma NonNumericSize(fifo: string, size: string, customer: string)
    requires NoSpace(fifo) && ':' !in fifo
    requires size != [] && NoSpace(size) && !NumeralShape(size)
    requires customer != [] && NoSpace(customer)
    ensures ParseRecord(RecordLine(fifo, "REQUEST_SEAT", size, customer)) == BadNumber
  {
    UnreadableSize(fifo, size, customer);
  }

  /** A request whose size field has more digits than int() converts is read as
      BadNumber, like any other field int() refuses. */
  lemma LongSizeRefused(fifo: string, size: string, customer: string)
    requires NoSpace(fifo) && ':' !in fifo
    requires size != [] && NoSpace(size) && DigitCount(size) > Config.MaxIntDigits
    requires customer != [] && NoSpace(customer)
    ensures ParseRecord(RecordLine(fifo, "REQUEST_SEAT", size, customer)) == BadNumber
  {
    LongNumeralRefused(size);
    UnreadableSize(fifo, size, customer);
  }

  /** Any request whose size field int() refuses is read as BadNumber. */
  lemma UnreadableSize(fifo: string, size: string, customer: string)
    requires NoSpace(fifo) && ':' !in fifo
    requires size != [] && NoSpace(size) && ParseInt(size) == None
    requires customer != [] && NoSpace(customer)
    ensures ParseRecord(RecordLine(fifo, "REQUEST_SEAT", size, customer)) == BadNumber
  {
    RecordParsed(fifo, "REQUEST_SEAT", size, customer);
  }

  /** int() refuses a numeral of more than Config.MaxIntDigits digits, signed or not. */
  lemma LongNumeralRefused(s: string)
    requires DigitCount(s) > Config.MaxIntDigits
    ensures ParseInt(s) == None
  {
    if s[0] == '-' || s[0] == '+' {
      assert DigitCount(s) == DigitCount(s[1..]);
    }
  }

  /** A line with no colon is skipped. */
  lemma NoColonSkipped(line: string)
    requires ':' !in line
    ensures ParseRecord(line) == Blank || ParseRecord(line) == NoAddress
  {
    var l := TrimLeft(line);
    var s := TrimRight(l);
    assert forall k :: 0 <= k < |l| ==> l[k] == line[|line| - |l| + k];
    assert forall k :: 0 <= k < |s| ==> s[k] == l[k];
    assert ':' !in s;
  }

  /** A record with fewer than three tokens after the colon is skipped, whatever
      whitespace surrounds the address and the message. */
  lemma FewTokensSkipped(a: string, b: string)
    requires ':' !in a
    requires |Tokens(b)| < 3
    ensures ParseRecord(a + ":" + b) == Incomplete
  {
    var a' := TrimLeft(a);
    StripAroundColon(a, b);
    assert ':' !in a' by {
      assert forall k :: 0 <= k < |a'| ==> a'[k] == a[|a| - |a'| + k];
    }
    ColonSplit(a', TrimRight(b));
    TrimRightTokens(b);
  }

  /** strip() of `a:b` strips only the front of a and the back of b. */
  lemma StripAroundColon(a: string, b: string)
    requires ':' !in a
    ensures Strip(a + ":" + b) == TrimLeft(a) + ":" + TrimRight(b)
  {
    TrimLeftColon(a, b);
    TrimRightColon(TrimLeft(a), b);
  }

  lemma {:induction false} TrimLeftColon(a: string, b: string)
    requires ':' !in a
    ensures TrimLeft(a + ":" + b) == TrimLeft(a) + ":" + b
    decreases |a|
  {
    if a == [] {
      assert a + ":" + b == [':'] + b;
    } else {
      assert (a + ":" + b)[0] == a[0];
      assert (a + ":" + b)[1..] == a[1..] + ":" + b;
      if IsSpace(a[0]) {
        TrimLeftColon(a[1..], b);
      }
    }
  }

  lemma {:induction false} TrimRightColon(x: string, b: string)
    ensures TrimRight(x + ":" + b) == x + ":" + TrimRight(b)
    decreases |b|
  {
    var s := x + ":" + b;
    if b == [] {
      assert s[|s| - 1] == ':';
    } else {
      assert s[|s| - 1] == b[|b| - 1];
      assert s[..|s| - 1] == x + ":" + b[..|b| - 1];
      if IsSpace(b[|b| - 1]) {
        TrimRightColon(x, b[..|b| - 1]);
      }
    }
  }

  predicate AllSpace(w: string) {
    forall k :: 0 <= k < |w| ==> IsSpace(w[k])
  }

  /** split() ignores trailing whitespace. */
  lemma TrimRightTokens(b: string)
    ensures Tokens(TrimRight(b)) == Tokens(b)
  {
    var r := TrimRight(b);
    var w := b[|r|..];
    assert b == r + w;
    assert AllSpace(w) by {
      assert forall k :: 0 <= k < |w| ==> w[k] == b[|r| + k];
    }
    TokensTrailing(r, w);
  }

  lemma {:induction false} SpaceTokens(w: string)
    requires AllSpace(w)
    ensures Tokens(w) == []
    decreases |w|
  {
    if w != [] {
      assert AllSpace(w[1..]) by {
        assert forall k :: 0 <= k < |w| - 1 ==> w[1..][k] == w[k + 1];
      }
      SpaceTokens(w[1..]);
    }
  }

  lemma {:induction false} WordLenTrailing(y: string, w: string)
    requires AllSpace(w)
    ensures WordLen(y + w) == WordLen(y)
    decreases |y|
  {
    if y == [] {
      assert y + w == w;
    } else {
      assert (y + w)[0] == y[0];
      if !IsSpace(y[0]) {
        assert (y + w)[1..] == y[1..] + w;
        WordLenTrailing(y[1..], w);
      }
    }
  }

  lemma {:induction false} TokensTrailing(y: string, w: string)
    requires AllSpace(w)
    ensures Tokens(y + w) == Tokens(y)
    decreases |y|
  {
    if y == [] {
      assert y + w == w;
      SpaceTokens(w);
    } else {
      assert (y + w)[0] == y[0];
      if IsSpace(y[0]) {
        assert (y + w)[1..] == y[1..] + w;
        TokensTrailing(y[1..], w);
      } else {
        var n := WordLen(y);
        WordLenTrailing(y, w);
        assert (y + w)[..n] == y[..n];
        assert (y + w)[n..] == y[n..] + w;
        TokensTrailing(y[n..], w);
      }
    }
  }
}
