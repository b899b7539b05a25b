/**
 SQL text as the placeholder scanner divides it: quoted literals with doubled
 quotes, numbered and bare placeholders, and single characters of other text.
 */
module SqlTokens {

  datatype Token = Plain(c: char) | Literal(text: string) | Bare | Numbered(digits: string)

  predicate IsQuote(c: char) { c == '\'' || c == '"' || c == '`' }

  predicate IsDigit(c: char) { '0' <= c <= '9' }

  predicate IsSlot(t: Token) { t.Bare? || t.Numbered? }

  /** How many characters after an opening quote belong to its literal. */
  function LiteralLength(s: string, q: char): (n: nat)
    ensures n <= |s|
  {
    if s == "" then 0
    else if s[0] != q then 1 + LiteralLength(s[1..], q)
    else if |s| > 1 && s[1] == q then 2 + LiteralLength(s[2..], q)
    else 1
  }

  function DigitCount(s: string): (n: nat)
    ensures n <= |s| && forall j | 0 <= j < n :: IsDigit(s[j])
    ensures n < |s| ==> !IsDigit(s[n])
  {
    if s == "" || !IsDigit(s[0]) then 0 else 1 + DigitCount(s[1..])
  }

  function First(s: string): (t: Token)
    requires s != ""
    ensures 0 < |TextOf(t)| <= |s| && TextOf(t) == s[..|TextOf(t)|]
  {
    if IsQuote(s[0]) then
      var n := LiteralLength(s[1..], s[0]);
      Literal(s[..1 + n])
    else if s[0] == '?' then
      var n := DigitCount(s[1..]);
      if n == 0 then Bare else Numbered(s[1..1 + n])
    else Plain(s[0])
  }

  function TextOf(t: Token): string {
    match t
    case Plain(c) => [c]
    case Literal(text) => text
    case Bare => "?"
    case Numbered(digits) => "?" + digits
  }

  function Lex(s: string): seq<Token>
    decreases |s|
  {
    if s == "" then [] else [First(s)] + Lex(s[|TextOf(First(s))|..])
  }

  function Source(ts: seq<Token>): string {
    if ts == [] then "" else TextOf(ts[0]) + Source(ts[1..])
  }

  /** The number a digit string denotes. */
  function Number(digits: string): nat {
    if digits == "" then 0
    else
      var d := digits[|digits| - 1];
      Number(digits[..|digits| - 1]) * 10 + (if IsDigit(d) then d as nat - '0' as nat else 0)
  }

  /** The placeholder without its number. */
  function Blank(t: Token): Token {
    if t.Numbered? then Bare else t
  }

  function Blanked(ts: seq<Token>): (r: seq<Token>)
    ensures |r| == |ts| && forall j | 0 <= j < |ts| :: r[j] == Blank(ts[j])
  {
    seq(|ts|, j requires 0 <= j < |ts| => Blank(ts[j]))
  }

  // ----- text and tokens determine each other -----

  lemma {:induction false} SourceOfLex(s: string)
    ensures Source(Lex(s)) == s
    decreases |s|
  {
    if s != "" {
      SourceOfLex(s[|TextOf(First(s))|..]);
    }
  }

  lemma {:induction false} SourceSplit(a: seq<Token>, b: seq<Token>)
    ensures Source(a + b) == Source(a) + Source(b)
  {
    hide TextOf;
    if a == [] {
      assert a + b == b;
    } else {
      SourceSplit(a[1..], b);
      assert (a + b)[1..] == a[1..] + b;
      assert Source(a + b) == TextOf(a[0]) + (Source(a[1..]) + Source(b));
    }
  }

  /** A token sequence that its own text is divided into. */
  predicate Canonical(ts: seq<Token>) {
    ts == [] || (Source(ts) != "" && First(Source(ts)) == ts[0] && Canonical(ts[1..]))
  }

  lemma {:induction false} LexIsCanonical(s: string)
    ensures Canonical(Lex(s))
    decreases |s|
  {
    if s != "" {
      SourceOfLex(s);
      LexIsCanonical(s[|TextOf(First(s))|..]);
    }
  }

  lemma {:induction false} LexOfSource(ts: seq<Token>)
    requires Canonical(ts)
    ensures Lex(Source(ts)) == ts
  {
    hide First, TextOf;
    if ts != [] {
      LexOfSource(ts[1..]);
      assert Source(ts)[|TextOf(ts[0])|..] == Source(ts[1..]);
    }
  }

  // ----- where a token ends depends on one further character -----

  predicate SameStart(x: string, y: string) {
    if x == "" then y == "" else y != "" && y[0] == x[0]
  }

  lemma {:induction false} LiteralLocal(body: string, x: string, y: string, q: char)
    requires SameStart(x, y) && LiteralLength(body + x, q) == |body|
    ensures LiteralLength(body + y, q) == |body|
    decreases |body|
  {
    if body == "" {
      assert body + x == x && body + y == y;
    } else {
      assert (body + x)[1..] == body[1..] + x && (body + y)[1..] == body[1..] + y;
      if body[0] != q {
        LiteralLocal(body[1..], x, y, q);
      } else if |body| > 1 {
        if body[1] == q {
          assert (body + x)[2..] == body[2..] + x && (body + y)[2..] == body[2..] + y;
          LiteralLocal(body[2..], x, y, q);
        }
      }
    }
  }

  /** A token keeps its place, and a blanked one too, before any text that starts alike. */
  lemma FirstLocal(t: Token, x: string, y: string)
    requires TextOf(t) + x != "" && First(TextOf(t) + x) == t && SameStart(x, y)
    ensures First(TextOf(t) + y) == t && First(TextOf(Blank(t)) + y) == Blank(t)
  {
    var s, r := TextOf(t) + x, TextOf(t) + y;
    if t.Literal? {
      assert s[1..] == t.text[1..] + x && r[1..] == t.text[1..] + y;
      LiteralLocal(t.text[1..], x, y, s[0]);
    } else if IsSlot(t) {
      SlotLocal(t, x, y);
    }
  }

  lemma SlotLocal(t: Token, x: string, y: string)
    requires IsSlot(t) && First(TextOf(t) + x) == t && SameStart(x, y)
    ensures First(TextOf(t) + y) == t && First(TextOf(Blank(t)) + y) == Blank(t)
  {
    hide DigitCount;
    SlotDigits(t, x);
    SlotStands(t, y);
    SlotStands(Blank(t), y);
  }

  lemma SlotStands(t: Token, y: string)
    requires t.Bare? || (t.Numbered? && t.digits != "" && forall j | 0 <= j < |t.digits| :: IsDigit(t.digits[j]))
    requires y == "" || !IsDigit(y[0])
    ensures First(TextOf(t) + y) == t
  {
    hide DigitCount;
    var d := if t.Bare? then "" else t.digits;
    DigitsEnd(d, y);
    assert (TextOf(t) + y)[1..] == d + y;
  }

  /** A placeholder takes every digit that follows it. */
  lemma SlotDigits(t: Token, x: string)
    requires IsSlot(t) && First(TextOf(t) + x) == t
    ensures t.Numbered? ==> t.digits != "" && forall j | 0 <= j < |t.digits| :: IsDigit(t.digits[j])
    ensures x == "" || !IsDigit(x[0])
  {
    var s := TextOf(t) + x;
    var d := if t.Bare? then "" else t.digits;
    var rest := s[1..];
    assert rest == d + x;
    assert DigitCount(rest) == |d|;
    assert d == rest[..|d|];
    assert x != "" ==> rest[|d|] == x[0];
  }

  /** What a text starting with a literal or with other text looks like. */
  lemma FirstShape(t: Token, x: string)
    requires TextOf(t) + x != "" && First(TextOf(t) + x) == t
    ensures t.Literal? ==>
              && t.text != "" && IsQuote(t.text[0])
              && LiteralLength(t.text[1..] + x, t.text[0]) == |t.text| - 1
    ensures t.Plain? ==> !IsQuote(t.c) && t.c != '?'
  {
    if t.Literal? {
      assert (t.text + x)[1..] == t.text[1..] + x;
    }
  }

  lemma {:induction false} DigitsEnd(d: string, y: string)
    requires forall j | 0 <= j < |d| :: IsDigit(d[j])
    requires y == "" || !IsDigit(y[0])
    ensures DigitCount(d + y) == |d|
  {
    if d == "" {
      assert d + y == y;
    } else {
      DigitsEnd(d[1..], y);
      assert (d + y)[1..] == d[1..] + y;
    }
  }

  /** Removing the numbers leaves every other token where it was. */
  lemma {:induction false} BlankedIsCanonical(ts: seq<Token>)
    requires Canonical(ts)
    ensures Canonical(Blanked(ts)) && SameStart(Source(ts), Source(Blanked(ts)))
  {
    if ts == [] {
    } else {
      BlankedIsCanonical(ts[1..]);
      assert Blanked(ts)[1..] == Blanked(ts[1..]);
      FirstLocal(ts[0], Source(ts[1..]), Source(Blanked(ts[1..])));
      assert |TextOf(ts[0])| > 0;
    }
  }

  /** A run of tokens taken from a text is divided the same way on its own, if what follows it starts no token anew. */
  lemma {:induction false} CutIsCanonical(a: seq<Token>, b: seq<Token>)
    requires Canonical(a + b)
    requires b == [] || (b[0].Plain? && !IsDigit(b[0].c))
    ensures Canonical(a)
  {
    if a != [] {
      assert (a + b)[1..] == a[1..] + b && (a + b)[0] == a[0];
      CutIsCanonical(a[1..], b);
      SourceSplit(a, b);
      if |a| == 1 {
        LastStands(a[0], Source(b));
      } else {
        SourceSplit(a[1..], b);
        assert Source(a + b) == TextOf(a[0]) + Source(a[1..] + b);
        StartsWithFirst(a[1..]);
        FirstLocal(a[0], Source(a[1..] + b), Source(a[1..]));
      }
    }
  }

  lemma StartsWithFirst(ts: seq<Token>)
    requires Canonical(ts) && ts != []
    ensures Source(ts) != ""
  {
  }

  /** A token that stops before unrelated text also stops at the end. */
  lemma LastStands(t: Token, x: string)
    requires TextOf(t) + x != "" && First(TextOf(t) + x) == t
    ensures First(TextOf(t)) == t
  {
    var s := TextOf(t) + x;
    if t.Literal? {
      assert s[1..] == t.text[1..] + x;
      LiteralStops(t.text[1..], x, s[0]);
    } else if IsSlot(t) {
      SlotDigits(t, x);
      SlotStands(t, "");
      assert TextOf(t) + "" == TextOf(t);
    }
  }

  lemma {:induction false} LiteralStops(body: string, x: string, q: char)
    requires LiteralLength(body + x, q) == |body|
    ensures LiteralLength(body, q) == |body|
    decreases |body|
  {
    if body != "" {
      assert (body + x)[1..] == body[1..] + x;
      if body[0] != q {
        LiteralStops(body[1..], x, q);
      } else if |body| > 1 {
        if body[1] == q {
          assert (body + x)[2..] == body[2..] + x;
          LiteralStops(body[2..], x, q);
        }
      }
    }
  }

  // ----- what the scanner reads -----

  const DIGITS := "0123456789"

  /** Decimal notation, without leading zeros. */
  function Decimal(n: nat): string {
    if n < 10 then [DIGITS[n]] else Decimal(n / 10) + [DIGITS[n % 10]]
  }

  lemma DigitValue(n: nat)
    requires n < 10
    ensures IsDigit(DIGITS[n]) && DIGITS[n] as int - '0' as int == n
  {
  }

  lemma DigitListed(c: char)
    ensures IsDigit(c) <==> c in DIGITS
  {
    if IsDigit(c) {
      var n := c as int - '0' as int;
      DigitValue(n);
      assert DIGITS[n] == c;
    }
    if c in DIGITS {
      var n :| 0 <= n < |DIGITS| && DIGITS[n] == c;
      DigitValue(n);
    }
  }

  /** The number read from decimal notation is the number written. */
  lemma {:induction false} NumberOfDecimal(n: nat)
    ensures Decimal(n) != "" && forall j | 0 <= j < |Decimal(n)| :: IsDigit(Decimal(n)[j])
    ensures Number(Decimal(n)) == n
  {
    DigitValue(n % 10);
    if n < 10 {
      assert Decimal(n)[..0] == "";
    } else {
      NumberOfDecimal(n / 10);
      var high, low := Decimal(n / 10), DIGITS[n % 10];
      assert (high + [low])[..|high|] == high;
    }
  }

  lemma {:induction false} LeadingZero(digits: string)
    ensures Number("0" + digits) == Number(digits)
  {
    var whole := "0" + digits;
    if digits == "" {
      assert whole[..0] == "";
    } else {
      LeadingZero(digits[..|digits| - 1]);
      assert whole[..|whole| - 1] == "0" + digits[..|digits| - 1];
    }
  }

  /** A placeholder with a decimal number that no further digit follows is read with that number. */
  lemma DecimalReads(n: nat, rest: string)
    requires rest == "" || rest[0] !in DIGITS
    ensures First("?" + Decimal(n) + rest) == Numbered(Decimal(n))
    ensures Lex("?" + Decimal(n) + rest) == [Numbered(Decimal(n))] + Lex(rest)
  {
    NumberOfDecimal(n);
    var t := Numbered(Decimal(n));
    if rest != "" {
      DigitListed(rest[0]);
    }
    SlotStands(t, rest);
    assert TextOf(t) + rest == "?" + Decimal(n) + rest;
    assert ("?" + Decimal(n) + rest)[|TextOf(t)|..] == rest;
    hide First;
  }

  function Plains(s: string): (ts: seq<Token>)
    ensures |ts| == |s| && forall j | 0 <= j < |s| :: ts[j] == Plain(s[j])
  {
    seq(|s|, j requires 0 <= j < |s| => Plain(s[j]))
  }

  predicate Unmarked(s: string) {
    forall c | c in s :: c !in "'\"`?"
  }

  lemma UnmarkedRest(s: string)
    requires s != "" && Unmarked(s)
    ensures Unmarked(s[1..]) && !IsQuote(s[0]) && s[0] != '?'
  {
    assert forall c | c in s[1..] :: c in s;
    assert s[0] in s;
    NotSpecial(s[0]);
  }

  /** Text without quotes and placeholders is read character by character, whatever follows. */
  lemma {:induction false} PlainReads(s: string, rest: string)
    requires Unmarked(s)
    ensures Lex(s + rest) == Plains(s) + Lex(rest)
  {
    hide Unmarked, First, Lex, IsQuote;
    if s == "" {
      assert s + rest == rest && Plains(s) + Lex(rest) == Lex(rest);
    } else {
      UnmarkedRest(s);
      PlainReads(s[1..], rest);
      CharReads(s[0], s[1..] + rest);
      assert s + rest == [s[0]] + (s[1..] + rest);
      assert Plains(s) + Lex(rest) == [Plain(s[0])] + (Plains(s[1..]) + Lex(rest));
    }
  }

  lemma CharReads(c: char, rest: string)
    requires !IsQuote(c) && c != '?'
    ensures Lex([c] + rest) == [Plain(c)] + Lex(rest)
  {
    var s := [c] + rest;
    assert First(s) == Plain(c) && |TextOf(Plain(c))| == 1 && s[1..] == rest;
    hide First;
  }

  lemma NotSpecial(c: char)
    requires c !in "'\"`?"
    ensures !IsQuote(c) && c != '?'
  {
    assert "'\"`?"[0] == '\'' && "'\"`?"[1] == '\"' && "'\"`?"[2] == '`' && "'\"`?"[3] == '?';
  }

  /** The content of a literal, with each quote doubled. */
  function Doubled(q: char, content: string): string {
    if content == "" then ""
    else (if content[0] == q then [q, q] else [content[0]]) + Doubled(q, content[1..])
  }

  lemma QuoteListed(c: char)
    ensures IsQuote(c) <==> c in "'\"`"
  {
    assert "'\"`"[0] == '\'' && "'\"`"[1] == '\"' && "'\"`"[2] == '`';
  }

  /** A quoted text is one literal, whatever it holds, unless another quote follows it at once. */
  lemma LiteralReads(q: char, content: string, rest: string)
    requires q in "'\"`" && (rest == "" || rest[0] != q)
    ensures var quoted := [q] + Doubled(q, content) + [q];
            First(quoted + rest) == Literal(quoted) && Lex(quoted + rest) == [Literal(quoted)] + Lex(rest)
  {
    hide Doubled, Lex, First, LiteralLength, IsQuote;
    var body := Doubled(q, content) + [q];
    QuoteListed(q);
    DoubledEnds(q, content, rest);
    BodyReads(q, body, rest);
    assert [q] + body == [q] + Doubled(q, content) + [q];
    LexStep([q] + body + rest, Literal([q] + body), rest);
  }

  lemma BodyReads(q: char, body: string, rest: string)
    requires IsQuote(q) && LiteralLength(body + rest, q) == |body|
    ensures First([q] + body + rest) == Literal([q] + body)
  {
    hide LiteralLength;
    var s := [q] + body + rest;
    assert s[1..] == body + rest && s[..1 + |body|] == [q] + body;
  }

  lemma LexStep(s: string, t: Token, rest: string)
    requires s != "" && First(s) == t && s == TextOf(t) + rest
    ensures Lex(s) == [t] + Lex(rest)
  {
    hide First, TextOf;
    assert s[|TextOf(t)|..] == rest;
  }

  lemma {:induction false} DoubledEnds(q: char, content: string, rest: string)
    requires rest == "" || rest[0] != q
    ensures LiteralLength(Doubled(q, content) + [q] + rest, q) == |Doubled(q, content)| + 1
  {
    var s := Doubled(q, content) + [q] + rest;
    if content == "" {
      assert s == [q] + rest && s[1..] == rest;
    } else {
      DoubledEnds(q, content[1..], rest);
      var tail := Doubled(q, content[1..]) + [q] + rest;
      if content[0] == q {
        assert s[2..] == tail && s[0] == s[1] == q;
      } else {
        assert s[1..] == tail && s[0] == content[0];
      }
    }
  }
}
