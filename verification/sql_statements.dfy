/**
 Splitting a batch into statements. The splitter only toggles a quote variable,
 yet it cuts the text where the placeholder scanner sees a plain semicolon.
 */
module SqlStatements {
  import opened SqlTokens

  /** The White_Space characters of the Unicode standard. */
  predicate IsSpace(c: char) {
    var n := c as int;
    || 9 <= n <= 13 || n == 32 || n == 0x85 || n == 0xA0 || n == 0x1680 || 0x2000 <= n <= 0x200A
    || n == 0x2028 || n == 0x2029 || n == 0x202F || n == 0x205F || n == 0x3000
  }

  /** Of the ASCII characters, the space and the five controls from tab to carriage return. */
  lemma AsciiSpaces(c: char)
    requires c as int < 128
    ensures IsSpace(c) <==> c in " \t\n\U{00000B}\U{00000C}\r"
  {
    var spaces := " \t\n\U{00000B}\U{00000C}\r";
    assert spaces[0] == ' ' && spaces[1] == '\t' && spaces[2] == '\n' && spaces[3] == '\U{00000B}';
    assert spaces[4] == '\U{00000C}' && spaces[5] == '\r';
  }

  /** The text from `i` to `j`, with only spaces before and after it and none at its own ends. */
  ghost predicate TrimmedAt(s: string, r: string, i: int, j: int) {
    && 0 <= i <= j <= |s| && r == s[i..j]
    && (forall k | 0 <= k < i :: IsSpace(s[k])) && (forall k | j <= k < |s| :: IsSpace(s[k]))
    && (i < j ==> !IsSpace(s[i]) && !IsSpace(s[j - 1]))
  }

  function Trimmed(s: string): (r: string)
    ensures r == "" <==> forall c | c in s :: IsSpace(c)
    decreases |s|
  {
    if s == "" then ""
    else if IsSpace(s[0]) then Trimmed(s[1..])
    else if IsSpace(s[|s| - 1]) then Trimmed(s[..|s| - 1])
    else s
  }

  /** Trimming takes the spaces off both ends and nothing else. */
  lemma {:induction false} TrimmedExactly(s: string)
    ensures exists i, j :: TrimmedAt(s, Trimmed(s), i, j)
    ensures forall r, i, j | TrimmedAt(s, r, i, j) :: r == Trimmed(s)
    decreases |s|
  {
    hide IsSpace;
    if s == "" {
      assert Trimmed(s) == "" == s[0..0];
      assert TrimmedAt(s, Trimmed(s), 0, 0);
    } else if IsSpace(s[0]) {
      TrimmedExactly(s[1..]);
      TrimFront(s);
      var i, j :| TrimmedAt(s[1..], Trimmed(s[1..]), i, j);
      assert TrimmedAt(s, Trimmed(s), i + 1, j + 1);
    } else if IsSpace(s[|s| - 1]) {
      TrimmedExactly(s[..|s| - 1]);
      TrimBack(s);
      var i, j :| TrimmedAt(s[..|s| - 1], Trimmed(s[..|s| - 1]), i, j);
      assert TrimmedAt(s, Trimmed(s), i, j);
    } else {
      assert s[0..|s|] == s;
      assert TrimmedAt(s, Trimmed(s), 0, |s|);
    }
  }

  lemma TrimFront(s: string)
    requires s != "" && IsSpace(s[0])
    ensures forall r, i, j | TrimmedAt(s[1..], r, i, j) :: TrimmedAt(s, r, i + 1, j + 1)
    ensures forall r, i, j | TrimmedAt(s, r, i, j) ::
              if i == 0 then r == "" && TrimmedAt(s[1..], r, 0, 0) else TrimmedAt(s[1..], r, i - 1, j - 1)
  {
    hide IsSpace;
    var rest := s[1..];
    assert forall k | 0 <= k < |rest| :: rest[k] == s[k + 1];
    forall r, i, j | TrimmedAt(rest, r, i, j) ensures TrimmedAt(s, r, i + 1, j + 1) {
      assert s[i + 1..j + 1] == rest[i..j];
      assert forall k | 0 < k <= i :: s[k] == rest[k - 1];
      assert forall k | j < k < |s| :: s[k] == rest[k - 1];
    }
    forall r, i, j | TrimmedAt(s, r, i, j)
      ensures if i == 0 then r == "" && TrimmedAt(rest, r, 0, 0) else TrimmedAt(rest, r, i - 1, j - 1)
    {
      if i > 0 {
        assert s[i..j] == rest[i - 1..j - 1];
      }
    }
  }

  lemma TrimBack(s: string)
    requires s != "" && !IsSpace(s[0]) && IsSpace(s[|s| - 1])
    ensures forall r, i, j | TrimmedAt(s[..|s| - 1], r, i, j) :: TrimmedAt(s, r, i, j)
    ensures forall r, i, j | TrimmedAt(s, r, i, j) :: TrimmedAt(s[..|s| - 1], r, i, j)
  {
    hide IsSpace;
    var init := s[..|s| - 1];
    assert forall k | 0 <= k < |init| :: init[k] == s[k];
    forall r, i, j | TrimmedAt(init, r, i, j) ensures TrimmedAt(s, r, i, j) {
      assert s[i..j] == init[i..j];
    }
    forall r, i, j | TrimmedAt(s, r, i, j) ensures TrimmedAt(init, r, i, j) {
      assert s[i..j] == init[i..j];
    }
  }

  /** The statements kept: trimmed, and without the empty ones. */
  function Cleaned(pieces: seq<string>): seq<string> {
    if pieces == [] then []
    else (if Trimmed(pieces[0]) == "" then [] else [Trimmed(pieces[0])]) + Cleaned(pieces[1..])
  }

  ghost predicate IsTrim(s: string, r: string) {
    exists i, j :: TrimmedAt(s, r, i, j)
  }

  ghost predicate AllSpace(s: string) {
    forall c | c in s :: IsSpace(c)
  }

  /** In order, each piece that is not all spaces leaves its text without outer spaces, and nothing else is left. */
  ghost predicate Keeps(pieces: seq<string>, result: seq<string>) {
    if pieces == [] then result == []
    else if AllSpace(pieces[0]) then Keeps(pieces[1..], result)
    else result != [] && IsTrim(pieces[0], result[0]) && Keeps(pieces[1..], result[1..])
  }

  lemma {:induction false} CleanedKeeps(pieces: seq<string>)
    ensures Keeps(pieces, Cleaned(pieces))
  {
    hide Trimmed, TrimmedAt, IsSpace;
    if pieces != [] {
      CleanedKeeps(pieces[1..]);
      TrimmedExactly(pieces[0]);
      var first := if Trimmed(pieces[0]) == "" then [] else [Trimmed(pieces[0])];
      assert AllSpace(pieces[0]) <==> first == [];
      if first == [] {
        assert [] + Cleaned(pieces[1..]) == Cleaned(pieces[1..]);
      } else {
        assert (first + Cleaned(pieces[1..]))[1..] == Cleaned(pieces[1..]);
      }
    }
  }

  // ----- by tokens -----

  /** The tokens between plain semicolons. */
  function Pieces(ts: seq<Token>): (r: seq<seq<Token>>)
    ensures r != []
  {
    if ts == [] then [[]]
    else if ts[0] == Plain(';') then [[]] + Pieces(ts[1..])
    else var r := Pieces(ts[1..]); [[ts[0]] + r[0]] + r[1..]
  }

  function Sources(pieces: seq<seq<Token>>): (r: seq<string>)
    ensures |r| == |pieces|
  {
    seq(|pieces|, j requires 0 <= j < |pieces| => Source(pieces[j]))
  }

  function Joined(texts: seq<string>): string {
    if texts == [] then "" else if |texts| == 1 then texts[0] else texts[0] + ";" + Joined(texts[1..])
  }

  /** Each piece is scanned on its own exactly as it is inside the batch, and holds no plain semicolon. */
  lemma {:induction false} PiecesStandAlone(ts: seq<Token>, k: nat)
    requires Canonical(ts) && k < |Pieces(ts)|
    ensures Lex(Source(Pieces(ts)[k])) == Pieces(ts)[k] && Plain(';') !in Pieces(ts)[k]
  {
    hide Source, Lex, First;
    if k == 0 {
      FirstPieceStands(ts);
    } else if ts[0] == Plain(';') {
      PiecesStandAlone(ts[1..], k - 1);
    } else {
      PiecesStandAlone(ts[1..], k);
    }
  }

  lemma FirstPieceStands(ts: seq<Token>)
    requires Canonical(ts)
    ensures Lex(Source(Pieces(ts)[0])) == Pieces(ts)[0] && Plain(';') !in Pieces(ts)[0]
  {
    hide Canonical, Source, Lex;
    FirstPiece(ts);
    var n := |Pieces(ts)[0]|;
    assert ts == ts[..n] + ts[n..];
    CutIsCanonical(ts[..n], ts[n..]);
    LexOfSource(ts[..n]);
    assert Pieces(ts)[0] == ts[..n];
  }

  lemma {:induction false} FirstPiece(ts: seq<Token>)
    ensures var p := Pieces(ts)[0]; p <= ts && Plain(';') !in p && (|p| == |ts| || ts[|p|] == Plain(';'))
  {
    if ts != [] && ts[0] != Plain(';') {
      FirstPiece(ts[1..]);
    }
  }

  // ----- trimming and tokens -----

  predicate SpaceToken(t: Token) {
    t.Plain? && IsSpace(t.c)
  }

  /** The tokens without the space tokens at both ends. */
  function Inner(ts: seq<Token>): (r: seq<Token>)
    decreases |ts|
  {
    if ts == [] then []
    else if SpaceToken(ts[0]) then Inner(ts[1..])
    else if SpaceToken(ts[|ts| - 1]) then Inner(ts[..|ts| - 1])
    else ts
  }

  /** The text ends inside a literal that ends in a space. */
  predicate OpenSpace(ts: seq<Token>) {
    && ts != [] && ts[|ts| - 1].Literal?
    && ts[|ts| - 1].text != "" && IsSpace(ts[|ts| - 1].text[|ts[|ts| - 1].text| - 1])
  }

  /** Space characters belong to no other token than a literal, and none starts with one. */
  lemma EdgeSpaces(t: Token, x: string)
    requires TextOf(t) + x != "" && First(TextOf(t) + x) == t
    ensures TextOf(t) != "" && (IsSpace(TextOf(t)[0]) <==> SpaceToken(t))
    ensures !t.Literal? ==> (IsSpace(TextOf(t)[|TextOf(t)| - 1]) <==> SpaceToken(t))
  {
    hide LiteralLength, DigitCount;
    if IsSlot(t) {
      SlotDigits(t, x);
    }
  }

  /** A literal that other text follows ends with its quote. */
  lemma {:induction false} LiteralCloses(body: string, x: string, q: char)
    requires x != "" && LiteralLength(body + x, q) == |body|
    ensures body != "" && body[|body| - 1] == q
    decreases |body|
  {
    if body != "" {
      assert (body + x)[1..] == body[1..] + x;
      if body[0] != q {
        LiteralCloses(body[1..], x, q);
      } else if |body| > 1 {
        assert (body + x)[2..] == body[2..] + x;
        LiteralCloses(body[2..], x, q);
      }
    }
  }

  lemma {:induction false} CanonicalRest(a: seq<Token>, b: seq<Token>)
    requires Canonical(a + b)
    ensures Canonical(b)
  {
    hide First, Source;
    if a == [] {
      assert a + b == b;
    } else {
      assert (a + b)[1..] == a[1..] + b;
      CanonicalRest(a[1..], b);
    }
  }

  lemma OneThen(t: Token, next: seq<Token>)
    requires Canonical([t] + next)
    ensures TextOf(t) + Source(next) != "" && First(TextOf(t) + Source(next)) == t
  {
    hide First, TextOf;
    assert ([t] + next)[1..] == next;
  }

  /** Only a text that nothing follows can end inside a literal. */
  lemma FollowedCloses(ts: seq<Token>, next: seq<Token>)
    requires Canonical(ts + next) && ts != [] && Source(next) != ""
    ensures !OpenSpace(ts)
  {
    hide Canonical, First, TextOf, Source, IsSpace;
    var init, last := ts[..|ts| - 1], ts[|ts| - 1];
    assert ts + next == init + ([last] + next);
    CanonicalRest(init, [last] + next);
    OneThen(last, next);
    LastCloses(last, Source(next));
  }

  lemma LastCloses(t: Token, x: string)
    requires x != "" && First(TextOf(t) + x) == t
    ensures t.Literal? ==> t.text != "" && !IsSpace(t.text[|t.text| - 1])
  {
    hide LiteralLength, DigitCount;
    FirstShape(t, x);
    if t.Literal? {
      LiteralCloses(t.text[1..], x, t.text[0]);
    }
  }

  lemma LastToken(ts: seq<Token>)
    requires Canonical(ts) && ts != []
    ensures var n := |ts| - 1;
            && Source(ts) == Source(ts[..n]) + TextOf(ts[n]) && TextOf(ts[n]) != "" && First(TextOf(ts[n])) == ts[n]
  {
    hide *;
    var n := |ts| - 1;
    assert ts[..n] + [ts[n]] == ts;
    LastOf(ts[..n], ts[n]);
  }

  lemma LastOf(a: seq<Token>, t: Token)
    requires Canonical(a + [t])
    ensures Source(a + [t]) == Source(a) + TextOf(t) && TextOf(t) != "" && First(TextOf(t)) == t
  {
    hide *;
    SourceSplit(a, [t]);
    CanonicalRest(a, [t]);
    assert [t] + [] == [t];
    OneThen(t, []);
    OneSource(t);
    assert TextOf(t) + "" == TextOf(t);
  }

  lemma OneSource(t: Token)
    ensures Source([t]) == TextOf(t) && Source([]) == ""
  {
    assert [t][1..] == [];
  }

  lemma {:induction false} TrimmedSource(ts: seq<Token>)
    requires Canonical(ts) && !OpenSpace(ts)
    ensures Canonical(Inner(ts)) && Trimmed(Source(ts)) == Source(Inner(ts))
    decreases |ts|
  {
    hide First, TextOf, IsSpace, LiteralLength;
    if ts != [] {
      var s, n := Source(ts), |ts| - 1;
      EdgeSpaces(ts[0], Source(ts[1..]));
      LastToken(ts);
      assert TextOf(ts[n]) + "" == TextOf(ts[n]);
      EdgeSpaces(ts[n], "");
      if SpaceToken(ts[0]) {
        SpaceText(ts[0]);
        assert s[1..] == Source(ts[1..]);
        TrimmedSource(ts[1..]);
      } else if SpaceToken(ts[n]) {
        SpaceText(ts[n]);
        assert ts == ts[..n] + [ts[n]] && s[..|s| - 1] == Source(ts[..n]);
        NotDigit(ts[n]);
        CutIsCanonical(ts[..n], [ts[n]]);
        assert Source([ts[n]]) != "" by {
          assert [ts[n]][1..] == [];
        }
        FollowedCloses(ts[..n], [ts[n]]);
        TrimmedSource(ts[..n]);
      } else {
        LastSpace(ts);
      }
    }
  }

  lemma SpaceText(t: Token)
    requires SpaceToken(t)
    ensures TextOf(t) == [t.c] && IsSpace(t.c)
  {
  }

  lemma NotDigit(t: Token)
    requires SpaceToken(t)
    ensures t.Plain? && !IsDigit(t.c)
  {
  }

  lemma LastSpace(ts: seq<Token>)
    requires ts != [] && Canonical(ts) && !OpenSpace(ts) && !SpaceToken(ts[|ts| - 1])
    ensures Source(ts) != "" && !IsSpace(Source(ts)[|Source(ts)| - 1])
  {
    hide Canonical, Source, First, TextOf, IsSpace;
    LastToken(ts);
    var t := ts[|ts| - 1];
    assert TextOf(t) + "" == TextOf(t);
    EdgeSpaces(t, "");
    if t.Literal? {
      LiteralText(t);
    }
  }

  lemma {:induction false} InnerLast(ts: seq<Token>)
    requires ts != [] && !SpaceToken(ts[|ts| - 1])
    ensures Inner(ts) != [] && Inner(ts)[|Inner(ts)| - 1] == ts[|ts| - 1]
    decreases |ts|
  {
    if SpaceToken(ts[0]) {
      InnerLast(ts[1..]);
    }
  }

  /**
   A statement without its outer spaces has the tokens of its piece without the outer space
   tokens, exactly when the piece does not end in a space inside an unclosed literal.
   */
  lemma TrimmedScans(s: string)
    ensures Lex(Trimmed(s)) == Inner(Lex(s)) <==> !OpenSpace(Lex(s))
  {
    hide *;
    var ts := Lex(s);
    LexIsCanonical(s);
    SourceOfLex(s);
    if OpenSpace(ts) {
      OpenScans(s, ts);
    } else {
      TrimmedSource(ts);
      LexOfSource(Inner(ts));
    }
  }

  /** An unclosed literal keeps its last space in the tokens and loses it in the text. */
  lemma OpenScans(s: string, ts: seq<Token>)
    requires OpenSpace(ts)
    ensures Lex(Trimmed(s)) != Inner(ts)
  {
    hide Lex, First, TextOf, IsSpace, Trimmed, Inner, Canonical, Source;
    if Lex(Trimmed(s)) == Inner(ts) {
      InnerLast(ts);
      SourceOfLex(Trimmed(s));
      LexIsCanonical(Trimmed(s));
      LastToken(Inner(ts));
      LiteralText(ts[|ts| - 1]);
      TrimmedEnds(s);
      assert false;
    }
  }

  lemma LiteralText(t: Token)
    requires t.Literal?
    ensures TextOf(t) == t.text
  {
  }

  lemma TrimmedEnds(s: string)
    requires Trimmed(s) != ""
    ensures !IsSpace(Trimmed(s)[|Trimmed(s)| - 1])
  {
    TrimmedExactly(s);
    var i, j :| TrimmedAt(s, Trimmed(s), i, j);
  }

  // ----- by toggling -----

  function Toggle(q: char, c: char): char {
    if q == '\0' && IsQuote(c) then c else if c == q then '\0' else q
  }

  /** The text cut at semicolons met while no quote is open. */
  function Cut(q: char, s: string): (r: seq<string>)
    ensures r != []
    decreases |s|
  {
    if s == "" then [""]
    else if q == '\0' && s[0] == ';' then [""] + Cut(q, s[1..])
    else Prefixed([s[0]], Cut(Toggle(q, s[0]), s[1..]))
  }

  function Prefixed(x: string, r: seq<string>): (p: seq<string>)
    requires r != []
    ensures p != []
  {
    [x + r[0]] + r[1..]
  }

  lemma PrefixedTwice(x: string, y: string, r: seq<string>)
    requires r != []
    ensures Prefixed(x, Prefixed(y, r)) == Prefixed(x + y, r)
  {
    assert Prefixed(y, r)[1..] == r[1..];
    assert x + (y + r[0]) == x + y + r[0];
  }

  lemma PrefixedNone(r: seq<string>)
    requires r != []
    ensures Prefixed("", r) == r
  {
    assert "" + r[0] == r[0];
  }

  /** Whatever a literal holds, doubled quotes included, the toggle is off again after it. */
  lemma {:induction false} LiteralUncut(body: string, rest: string, q: char)
    requires IsQuote(q) && LiteralLength(body + rest, q) == |body|
    ensures Cut(q, body + rest) == Prefixed(body, Cut('\0', rest))
    decreases |body|
  {
    if body == "" {
      assert rest == "";
      PrefixedNone(Cut('\0', rest));
    } else {
      assert (body + rest)[1..] == body[1..] + rest;
      if body[0] != q {
        LiteralUncut(body[1..], rest, q);
        PrefixedTwice([body[0]], body[1..], Cut('\0', rest));
        assert body == [body[0]] + body[1..];
      } else if |body| > 1 {
        assert (body + rest)[2..] == body[2..] + rest;
        assert (body[1..] + rest)[1..] == body[2..] + rest;
        LiteralUncut(body[2..], rest, q);
        PrefixedTwice([q], body[2..], Cut('\0', rest));
        PrefixedTwice([q], [q] + body[2..], Cut('\0', rest));
        assert body == [q] + ([q] + body[2..]);
      } else {
        assert body[1..] + rest == rest && body == [q];
      }
    }
  }

  lemma {:induction false} DigitsUncut(d: string, rest: string)
    requires forall j | 0 <= j < |d| :: !IsQuote(d[j]) && d[j] != ';'
    ensures Cut('\0', d + rest) == Prefixed(d, Cut('\0', rest))
  {
    if d == "" {
      assert d + rest == rest;
      PrefixedNone(Cut('\0', rest));
    } else {
      assert (d + rest)[1..] == d[1..] + rest;
      DigitsUncut(d[1..], rest);
      hide Prefixed;
      PrefixedTwice([d[0]], d[1..], Cut('\0', rest));
      assert d == [d[0]] + d[1..];
    }
  }

  /** A token other than a plain semicolon is not cut. */
  lemma TokenUncut(t: Token, rest: string)
    requires TextOf(t) + rest != "" && First(TextOf(t) + rest) == t && t != Plain(';')
    ensures Cut('\0', TextOf(t) + rest) == Prefixed(TextOf(t), Cut('\0', rest))
  {
    hide First, LiteralLength, DigitCount, Prefixed;
    FirstShape(t, rest);
    if t.Literal? {
      var q, body := t.text[0], t.text[1..];
      assert t.text == [q] + body && (t.text + rest)[1..] == body + rest;
      LiteralUncut(body, rest, q);
      PrefixedTwice([q], body, Cut('\0', rest));
    } else {
      if IsSlot(t) {
        SlotDigits(t, rest);
      }
      DigitsUncut(TextOf(t), rest);
    }
  }

  lemma PieceGrows(t: Token, ts: seq<Token>)
    requires t != Plain(';')
    ensures Sources(Pieces([t] + ts)) == Prefixed(TextOf(t), Sources(Pieces(ts)))
  {
    hide TextOf;
    var r := Pieces(ts);
    assert ([t] + ts)[1..] == ts;
    assert Pieces([t] + ts) == [[t] + r[0]] + r[1..];
    assert ([t] + r[0])[1..] == r[0];
    assert Source([t] + r[0]) == TextOf(t) + Source(r[0]);
    assert Sources(Pieces([t] + ts)) == [TextOf(t) + Source(r[0])] + Sources(r)[1..];
  }

  lemma PieceEnds(ts: seq<Token>)
    ensures Sources(Pieces([Plain(';')] + ts)) == [""] + Sources(Pieces(ts))
  {
    assert ([Plain(';')] + ts)[1..] == ts;
    assert Pieces([Plain(';')] + ts) == [[]] + Pieces(ts);
  }

  /** The toggle cuts where the scanner sees a plain semicolon. */
  lemma {:induction false} CutIsPieces(ts: seq<Token>)
    requires Canonical(ts)
    ensures Cut('\0', Source(ts)) == Sources(Pieces(ts))
  {
    hide First, Pieces, Sources, Prefixed;
    if ts == [] {
      NoPieces();
    } else {
      CutIsPieces(ts[1..]);
      assert ts == [ts[0]] + ts[1..];
      if ts[0] == Plain(';') {
        assert Source(ts)[1..] == Source(ts[1..]);
        PieceEnds(ts[1..]);
      } else {
        TokenUncut(ts[0], Source(ts[1..]));
        PieceGrows(ts[0], ts[1..]);
      }
    }
  }

  lemma NoPieces()
    ensures Sources(Pieces([])) == [""]
  {
  }

  /** The pieces and the semicolons between them are the whole text. */
  lemma {:induction false} PiecesRestoreText(ts: seq<Token>)
    ensures Joined(Sources(Pieces(ts))) == Source(ts)
  {
    hide Pieces, Sources, TextOf;
    if ts == [] {
      NoPieces();
    } else {
      PiecesRestoreText(ts[1..]);
      assert ts == [ts[0]] + ts[1..];
      var r := Sources(Pieces(ts[1..]));
      if ts[0] == Plain(';') {
        PieceEnds(ts[1..]);
        assert ([""] + r)[1..] == r && TextOf(Plain(';')) == ";" by {
          SemicolonText();
        }
      } else {
        PieceGrows(ts[0], ts[1..]);
        JoinedGrows(TextOf(ts[0]), r);
      }
    }
  }

  lemma SemicolonText()
    ensures TextOf(Plain(';')) == ";"
  {
  }

  lemma JoinedGrows(x: string, r: seq<string>)
    requires r != []
    ensures Joined(Prefixed(x, r)) == x + Joined(r)
  {
    assert Prefixed(x, r)[1..] == r[1..];
    assert |r| > 1 ==> x + r[0] + ";" + Joined(r[1..]) == x + (r[0] + ";" + Joined(r[1..]));
  }

  // ----- which characters are quoted -----

  /** For each character, whether a quote is open before it. */
  function ToggleMarks(q: char, s: string): (r: seq<bool>)
    ensures |r| == |s|
    decreases |s|
  {
    if s == "" then [] else [q != '\0'] + ToggleMarks(Toggle(q, s[0]), s[1..])
  }

  /** For each character, whether its token is a literal. */
  function TokenMarks(ts: seq<Token>): (r: seq<bool>)
    ensures |r| == |Source(ts)|
  {
    if ts == [] then [] else seq(|TextOf(ts[0])|, _ => ts[0].Literal?) + TokenMarks(ts[1..])
  }

  predicate SameMarks(s: string, x: seq<bool>, y: seq<bool>)
    requires |x| == |y| == |s|
  {
    forall i | 0 <= i < |s| && !IsQuote(s[i]) :: x[i] == y[i]
  }

  /** The marks of `s`, matched with `true` on `body` and with `rest`'s own marks after it. */
  predicate MarkedLiteral(body: string, rest: string, marks: seq<bool>)
    requires |marks| == |body| + |rest|
  {
    && (forall i | 0 <= i < |body| && !IsQuote(body[i]) :: marks[i])
    && marks[|body|..] == ToggleMarks('\0', rest)
  }

  lemma {:induction false} LiteralMarked(body: string, rest: string, q: char)
    requires IsQuote(q) && LiteralLength(body + rest, q) == |body|
    ensures MarkedLiteral(body, rest, ToggleMarks(q, body + rest))
    decreases |body|
  {
    if body == "" {
    } else {
      assert (body + rest)[1..] == body[1..] + rest;
      if body[0] != q {
        LiteralMarked(body[1..], rest, q);
        MarkedOn(body, rest, true, ToggleMarks(q, body[1..] + rest));
      } else if |body| > 1 {
        assert (body + rest)[2..] == body[2..] + rest;
        assert (body[1..] + rest)[1..] == body[2..] + rest && body[1..][1..] == body[2..];
        LiteralMarked(body[2..], rest, q);
        MarkedOn(body[1..], rest, false, ToggleMarks(q, body[2..] + rest));
        MarkedOn(body, rest, true, ToggleMarks('\0', body[1..] + rest));
      } else {
        assert body[1..] + rest == rest && body == [q];
      }
    }
  }

  lemma MarkedOn(body: string, rest: string, m: bool, marks: seq<bool>)
    requires body != "" && |marks| == |body| - 1 + |rest| && MarkedLiteral(body[1..], rest, marks)
             && (m || IsQuote(body[0]))
    ensures MarkedLiteral(body, rest, [m] + marks)
  {
    hide ToggleMarks, IsQuote;
    assert ([m] + marks)[|body|..] == marks[|body| - 1..];
    forall i | 0 <= i < |body| && !IsQuote(body[i]) ensures ([m] + marks)[i] {
      if i > 0 {
        assert body[1..][i - 1] == body[i];
      }
    }
  }

  lemma {:induction false} OpenMarked(x: string, rest: string)
    requires forall j | 0 <= j < |x| :: !IsQuote(x[j])
    ensures ToggleMarks('\0', x + rest) == seq(|x|, _ => false) + ToggleMarks('\0', rest)
  {
    if x == "" {
      assert x + rest == rest;
    } else {
      assert (x + rest)[1..] == x[1..] + rest;
      OpenMarked(x[1..], rest);
    }
  }

  lemma TokenMarked(t: Token, rest: string)
    requires TextOf(t) + rest != "" && First(TextOf(t) + rest) == t
    ensures var marks := ToggleMarks('\0', TextOf(t) + rest);
            && (forall i | 0 <= i < |TextOf(t)| && !IsQuote(TextOf(t)[i]) :: marks[i] == t.Literal?)
            && marks[|TextOf(t)|..] == ToggleMarks('\0', rest)
  {
    hide First, LiteralLength, DigitCount;
    FirstShape(t, rest);
    if t.Literal? {
      var q, body := t.text[0], t.text[1..];
      assert (t.text + rest)[1..] == body + rest;
      LiteralMarked(body, rest, q);
      assert forall i | 0 < i < |t.text| :: t.text[i] == body[i - 1];
    } else {
      if IsSlot(t) {
        SlotDigits(t, rest);
      }
      OpenMarked(TextOf(t), rest);
    }
  }

  /** Outside the quote characters themselves, toggling and scanning agree on what is quoted. */
  lemma {:induction false} MarksAgree(ts: seq<Token>)
    requires Canonical(ts)
    ensures SameMarks(Source(ts), ToggleMarks('\0', Source(ts)), TokenMarks(ts))
  {
    hide First, TextOf, ToggleMarks, IsQuote;
    if ts != [] {
      MarksAgree(ts[1..]);
      TokenMarked(ts[0], Source(ts[1..]));
      var x, y := ToggleMarks('\0', Source(ts)), TokenMarks(ts);
      var n := |TextOf(ts[0])|;
      forall i | 0 <= i < |Source(ts)| && !IsQuote(Source(ts)[i]) ensures x[i] == y[i] {
        if i >= n {
          assert x[i] == x[n..][i - n] && y[i] == y[n..][i - n];
          assert y[n..] == TokenMarks(ts[1..]);
        }
      }
    }
  }

  // ----- the splitter -----

  /** The kept statements so far, with the text from `start` still open. */
  ghost predicate Splitting(sql: string, result: seq<string>, start: nat, i: nat, quote: char) {
    start <= i <= |sql| && result + Cleaned(Prefixed(sql[start..i], Cut(quote, sql[i..]))) == Cleaned(Cut('\0', sql))
  }

  function Kept(s: string): seq<string> {
    if Trimmed(s) == "" then [] else [Trimmed(s)]
  }

  lemma SplitStart(sql: string)
    ensures Splitting(sql, [], 0, 0, '\0')
  {
    assert sql[0..0] == "" && sql[0..] == sql;
    PrefixedNone(Cut('\0', sql));
  }

  lemma SplitOn(sql: string, result: seq<string>, start: nat, i: nat, quote: char)
    requires Splitting(sql, result, start, i, quote) && i < |sql|
    ensures !(quote == '\0' && sql[i] == ';') ==> Splitting(sql, result, start, i + 1, Toggle(quote, sql[i]))
    ensures quote == '\0' && sql[i] == ';' ==> Splitting(sql, result + Kept(sql[start..i]), i + 1, i + 1, quote)
  {
    hide Trimmed, Toggle;
    var rest := Cut(Toggle(quote, sql[i]), sql[i + 1..]);
    assert sql[i..][1..] == sql[i + 1..];
    if quote == '\0' && sql[i] == ';' {
      var r := Cut(quote, sql[i + 1..]);
      PrefixedNone(r);
      assert sql[i + 1..i + 1] == "";
      assert sql[start..i] + "" == sql[start..i] && ([""] + r)[1..] == r;
      assert Prefixed(sql[start..i], [""] + r) == [sql[start..i]] + r;
      assert ([sql[start..i]] + r)[1..] == r;
      assert Cleaned([sql[start..i]] + r) == Kept(sql[start..i]) + Cleaned(r);
    } else {
      PrefixedTwice(sql[start..i], [sql[i]], rest);
      assert sql[start..i] + [sql[i]] == sql[start..i + 1];
    }
  }

  lemma SplitEnd(sql: string, result: seq<string>, start: nat, quote: char)
    requires Splitting(sql, result, start, |sql|, quote)
    ensures start <= |sql| && result + Kept(sql[start..]) == Cleaned(Sources(Pieces(Lex(sql))))
  {
    hide Trimmed, Pieces, Sources, Lex;
    LastPiece(sql, start, quote);
    hide Cleaned, Prefixed, Cut;
    CutBatch(sql);
  }

  lemma LastPiece(sql: string, start: nat, quote: char)
    requires start <= |sql|
    ensures Cleaned(Prefixed(sql[start..|sql|], Cut(quote, sql[|sql|..]))) == Kept(sql[start..])
  {
    hide Trimmed;
    var last := sql[start..|sql|];
    assert last == sql[start..] && last + "" == last;
    assert Prefixed(last, [""]) == [last] && [last][1..] == [];
  }

  lemma CutBatch(sql: string)
    ensures Cut('\0', sql) == Sources(Pieces(Lex(sql)))
  {
    hide Cut, Sources, Pieces, Lex;
    LexIsCanonical(sql);
    SourceOfLex(sql);
    CutIsPieces(Lex(sql));
  }

  method SplitStatements(sql: string) returns (result: seq<string>)
    ensures result == Cleaned(Sources(Pieces(Lex(sql))))
    ensures Keeps(Sources(Pieces(Lex(sql))), result)
  {
    hide Trimmed, Splitting, Cleaned, Sources, Pieces, Lex, Keeps;
    CleanedKeeps(Sources(Pieces(Lex(sql))));
    result := [];
    var quote, start := '\0', 0;
    SplitStart(sql);
    for i := 0 to |sql|
      invariant start <= i && Splitting(sql, result, start, i, quote)
    {
      SplitOn(sql, result, start, i, quote);
      var ch := sql[i];
      if quote == '\0' && IsQuote(ch) {
        quote := ch;
      } else if ch == quote {
        quote := '\0';
      } else if quote == '\0' && ch == ';' {
        var s := Trimmed(sql[start..i]);
        assert result + [] == result;
        if s != "" {
          result := result + [s];
        }
        start := i + 1;
      }
    }
    SplitEnd(sql, result, start, quote);
    var s := Trimmed(sql[start..]);
    assert result + [] == result;
    if s != "" {
      result := result + [s];
    }
  }
}
