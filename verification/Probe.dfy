/**
 The identity probe (file_transfer/network.rs): a one-line reply naming the node and its two
 ports, and the parser with its defaults. Node ids are plain text here.
 */
module Probe {
  import opened Bytes
  import opened Names

  const PREFIX := "VNTFT1:"
  const DEFAULT_QUIC_PORT := 34249

  type u16 = n: nat | n < 0x1_0000

  datatype Reply = Reply(node: string, quic: u16, tcp: u16)

  function Print(r: Reply): string {
    PREFIX + r.node + ":" + Decimal(r.quic) + ":" + Decimal(r.tcp) + "\n"
  }

  // ---------- The parser ----------

  predicate IsSpace(c: char) {
    c == ' ' || ('\t' <= c <= '\r')
  }

  function TrimEnd(s: string): string {
    if s != [] && IsSpace(s[|s| - 1]) then TrimEnd(s[..|s| - 1]) else s
  }

  function TrimStart(s: string): string {
    if s != [] && IsSpace(s[0]) then TrimStart(s[1..]) else s
  }

  /** The text before the first colon, and after it if there is one. */
  function Cut(s: string): (string, Option<string>) {
    if s == [] then ([], None)
    else if s[0] == ':' then ([], Some(s[1..]))
    else
      var (front, back) := Cut(s[1..]);
      ([s[0]] + front, back)
  }

  predicate IsDigit(c: char) {
    '0' <= c <= '9'
  }

  predicate AllDigits(s: string) {
    forall c | c in s :: IsDigit(c)
  }

  /** Digits, after a plus sign if there is one. */
  function ParsePort(s: string): Option<u16> {
    var digits := if s != [] && s[0] == '+' then s[1..] else s;
    if digits != [] && AllDigits(digits) && 0 <= Value(digits) < 0x1_0000 then Some(Value(digits)) else None
  }

  function Parse(text: string): Option<Reply> {
    var line := TrimStart(TrimEnd(text));
    if !(PREFIX <= line) then None
    else
      var (node, rest) := Cut(line[|PREFIX|..]);
      var (first, second) := if rest.Some? then Cut(rest.value) else ([], None);
      var quic := if rest.Some? then ParsePort(first) else None;
      var tcp := if second.Some? then ParsePort(Cut(second.value).0) else None;
      Some(Reply(node,
                 if quic.Some? && quic.value > 0 then quic.value else DEFAULT_QUIC_PORT,
                 if tcp.Some? then tcp.value else 0))
  }

  // ---------- Round trip ----------

  lemma {:induction false} DecimalIsDigits(n: nat)
    ensures AllDigits(Decimal(n))
    decreases n
  {
    if n < 10 {
    } else {
      DecimalIsDigits(n / 10);
    }
  }

  lemma {:induction false} CutAtColon(a: string, b: string)
    requires ':' !in a
    ensures Cut(a + ":" + b) == (a, Some(b))
    decreases |a|
  {
    var s := a + ":" + b;
    if a == [] {
      assert s[1..] == b;
    } else {
      assert s[0] == a[0] && s[1..] == a[1..] + ":" + b;
      CutAtColon(a[1..], b);
      assert [a[0]] + a[1..] == a;
    }
  }

  lemma {:induction false} CutWithout(a: string)
    requires ':' !in a
    ensures Cut(a) == (a, None)
    decreases |a|
  {
    if a == [] {
    } else {
      CutWithout(a[1..]);
      assert [a[0]] + a[1..] == a;
    }
  }

  lemma {:induction false} CutHasNoColon(s: string)
    ensures ':' !in Cut(s).0
    decreases |s|
  {
    if s == [] || s[0] == ':' {
    } else {
      CutHasNoColon(s[1..]);
    }
  }

  lemma PortReadsBack(n: u16)
    ensures ParsePort(Decimal(n)) == Some(n) && ':' !in Decimal(n)
  {
    DecimalIsDigits(n);
    ValueOfDecimal(n);
    assert Decimal(n)[0] in Decimal(n);
  }

  lemma TrimsNewline(r: Reply)
    ensures TrimStart(TrimEnd(Print(r))) == Print(r)[..|Print(r)| - 1]
  {
    var text := Print(r);
    var line := text[..|text| - 1];
    DecimalIsDigits(r.tcp);
    var last := Decimal(r.tcp)[|Decimal(r.tcp)| - 1];
    assert last in Decimal(r.tcp);
    assert line[|line| - 1] == last;
    assert TrimEnd(line) == line;
    assert line[0] == PREFIX[0];
  }

  /** A reply reads back exactly when the node id holds no colon; port 0 reads back as the default. */
  lemma ReadsBackExactly(r: Reply)
    ensures Parse(Print(r)) == Some(r.(quic := if r.quic == 0 then DEFAULT_QUIC_PORT else r.quic)) <==> ':' !in r.node
  {
    var text := Print(r);
    var line := text[..|text| - 1];
    TrimsNewline(r);
    var ports := Decimal(r.quic) + ":" + Decimal(r.tcp);
    assert line == PREFIX + (r.node + ":" + ports);
    assert line[|PREFIX|..] == r.node + ":" + ports;
    PortReadsBack(r.quic);
    PortReadsBack(r.tcp);
    CutHasNoColon(r.node + ":" + ports);
    if ':' !in r.node {
      CutAtColon(r.node, ports);
      CutAtColon(Decimal(r.quic), Decimal(r.tcp));
      CutWithout(Decimal(r.tcp));
    }
  }

  // ---------- What else is understood ----------

  const SPACES := {' ', '\t', '\n', '\U{0B}', '\U{0C}', '\r'}

  lemma {:induction false} SpaceInFront(c: char, s: string)
    requires c in SPACES
    ensures TrimStart(TrimEnd([c] + s)) == TrimStart(TrimEnd(s))
    decreases |s|
  {
    var t := [c] + s;
    if s == [] {
      assert TrimEnd(t) == [];
    } else if IsSpace(s[|s| - 1]) {
      assert t[..|t| - 1] == [c] + s[..|s| - 1];
      SpaceInFront(c, s[..|s| - 1]);
    } else {
      assert t[1..] == s;
    }
  }

  /** Blanks and line ends around a reply do not matter, and nothing else is trimmed. */
  lemma SpaceAround(c: char, text: string)
    ensures c in SPACES ==> Parse([c] + text) == Parse(text) == Parse(text + [c])
    ensures c !in SPACES ==> TrimEnd(text + [c]) == text + [c] && TrimStart([c] + text) == [c] + text
  {
    if c in SPACES {
      SpaceInFront(c, text);
      assert (text + [c])[..|text|] == text;
    }
  }

  lemma SpacesAre(c: char)
    ensures IsSpace(c) <==> c in SPACES
  {
  }

  lemma Untrimmed(line: string)
    requires line != "" && !IsSpace(line[0]) && !IsSpace(line[|line| - 1])
    ensures TrimStart(TrimEnd(line)) == line
  {
  }

  lemma TrimmedAlready(rest: string)
    requires rest != "" && rest[|rest| - 1] !in SPACES
    ensures TrimStart(TrimEnd(PREFIX + rest)) == PREFIX + rest && (PREFIX + rest)[|PREFIX|..] == rest
  {
    SpacesAre(rest[|rest| - 1]);
    Untrimmed(PREFIX + rest);
  }

  /** Both ports may be missing, as in replies of older versions: the default one, and none for TCP. */
  lemma PortsAreOptional(node: string, quic: u16)
    requires ':' !in node && node != "" && node[|node| - 1] !in SPACES
    ensures Parse(PREFIX + node) == Some(Reply(node, DEFAULT_QUIC_PORT, 0))
    ensures Parse(PREFIX + (node + ":" + Decimal(quic))) == Some(Reply(node, if quic == 0 then DEFAULT_QUIC_PORT else quic, 0))
  {
    WithoutPorts(node);
    WithOnePort(node, quic, Decimal(quic));
  }

  lemma WithoutPorts(node: string)
    requires ':' !in node && node != "" && node[|node| - 1] !in SPACES
    ensures Parse(PREFIX + node) == Some(Reply(node, DEFAULT_QUIC_PORT, 0))
  {
    TrimmedAlready(node);
    CutWithout(node);
  }

  lemma WithOnePort(node: string, quic: u16, port: string)
    requires ':' !in node && port == Decimal(quic)
    ensures Parse(PREFIX + (node + ":" + port)) == Some(Reply(node, if quic == 0 then DEFAULT_QUIC_PORT else quic, 0))
  {
    PortReadsBack(quic);
    DecimalIsDigits(quic);
    assert port[|port| - 1] in port;
    var rest := node + ":" + port;
    assert rest[|rest| - 1] == port[|port| - 1];
    TrimmedAlready(rest);
    CutAtColon(node, port);
    CutWithout(port);
  }

  /** A text is refused exactly when, trimmed, it does not begin with the protocol's tag. */
  lemma RefusedExactly(text: string)
    ensures Parse(text) == None <==> !("VNTFT1:" <= TrimStart(TrimEnd(text)))
  {
  }
}
