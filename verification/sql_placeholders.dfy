/**
 Placeholder rewriting for MySQL: the scanner that turns numbered and bare
 placeholders into positional ones, and the binding of the caller's values.
 */
module SqlPlaceholders {
  import opened Outcomes
  import opened SqlTokens

  // ----- which value a placeholder names -----

  /** Bare placeholders in the tokens so far. */
  function BareCount(ts: seq<Token>): nat {
    if ts == [] then 0 else BareCount(ts[..|ts| - 1]) + (if ts[|ts| - 1].Bare? then 1 else 0)
  }

  /** The value index the scanner records for each placeholder. */
  function ScannedIndices(ts: seq<Token>): seq<int> {
    if ts == [] then []
    else
      var init, last := ts[..|ts| - 1], ts[|ts| - 1];
      match last
      case Bare => ScannedIndices(init) + [BareCount(init)]
      case Numbered(digits) => ScannedIndices(init) + [Number(digits) - 1]
      case Plain(_) => ScannedIndices(init)
      case Literal(_) => ScannedIndices(init)
  }

  /** The largest parameter number SQLite has assigned so far. */
  function Largest(ts: seq<Token>): nat {
    if ts == [] then 0
    else
      var init, last := ts[..|ts| - 1], ts[|ts| - 1];
      if last.Bare? then Largest(init) + 1
      else if last.Numbered? && Number(last.digits) > Largest(init) then Number(last.digits)
      else Largest(init)
  }

  /** The value index SQLite gives each placeholder: a bare one takes the next parameter number. */
  function SqliteIndices(ts: seq<Token>): seq<int> {
    if ts == [] then []
    else
      var init, last := ts[..|ts| - 1], ts[|ts| - 1];
      match last
      case Bare => SqliteIndices(init) + [Largest(init)]
      case Numbered(digits) => SqliteIndices(init) + [Number(digits) - 1]
      case Plain(_) => SqliteIndices(init)
      case Literal(_) => SqliteIndices(init)
  }

  /** No numbered placeholder before a bare one exceeds the bare ones before that one. */
  predicate Unmixed(ts: seq<Token>) {
    forall p, q | 0 <= p < q < |ts| && ts[p].Numbered? && ts[q].Bare? :: Number(ts[p].digits) <= BareCount(ts[..q])
  }

  lemma {:induction false} IndicesCount(ts: seq<Token>)
    ensures |ScannedIndices(ts)| == |SqliteIndices(ts)| == |ScannedIndices(Blanked(ts))|
  {
    if ts != [] {
      IndicesCount(ts[..|ts| - 1]);
      assert Blanked(ts)[..|ts| - 1] == Blanked(ts[..|ts| - 1]);
    }
  }

  /** The largest number is the count of bare placeholders or one of the numbers written. */
  predicate IsLargest(ts: seq<Token>) {
    && BareCount(ts) <= Largest(ts)
    && (forall p | 0 <= p < |ts| && ts[p].Numbered? :: Number(ts[p].digits) <= Largest(ts))
    && (Largest(ts) == BareCount(ts) || exists p | 0 <= p < |ts| && ts[p].Numbered? ::
        Number(ts[p].digits) == Largest(ts))
  }

  /** The two numberings agree exactly on unmixed statements. */
  lemma {:induction false} NumberingsAgreeExactly(ts: seq<Token>)
    ensures SqliteIndices(ts) == ScannedIndices(ts) <==> Unmixed(ts)
    ensures Unmixed(ts) ==> IsLargest(ts)
  {
    hide Number, IsLargest, Unmixed, BareCount, Largest;
    if ts == [] {
      NothingScanned();
    } else {
      var init, last := ts[..|ts| - 1], ts[|ts| - 1];
      NumberingsAgreeExactly(init);
      IndicesCount(init);
      UnmixedInit(ts);
      if Unmixed(init) {
        LargestKept(ts);
      }
      if last.Bare? {
        AppendEqual(SqliteIndices(init), Largest(init), ScannedIndices(init), BareCount(init));
      } else if last.Numbered? {
        AppendEqual(SqliteIndices(init), Number(last.digits) - 1, ScannedIndices(init), Number(last.digits) - 1);
      }
    }
  }

  lemma NothingScanned()
    ensures Unmixed([]) && IsLargest([])
  {
  }

  lemma AppendEqual(a: seq<int>, x: int, b: seq<int>, y: int)
    requires |a| == |b|
    ensures a + [x] == b + [y] <==> a == b && x == y
  {
    if a + [x] == b + [y] {
      assert a == (a + [x])[..|a|] && b == (b + [y])[..|b|];
      assert x == (a + [x])[|a|] && y == (b + [y])[|b|];
    }
  }

  /** While the numberings agree, a bare placeholder keeps them so if no earlier number exceeds the bare count. */
  lemma LargestKept(ts: seq<Token>)
    requires ts != [] && IsLargest(ts[..|ts| - 1])
    ensures var init := ts[..|ts| - 1];
            && (Largest(init) == BareCount(init) <==> forall p | 0 <= p < |init| && init[p].Numbered? ::
                Number(init[p].digits) <= BareCount(init))
            && (ts[|ts| - 1].Bare? && Largest(init) == BareCount(init) ==> IsLargest(ts))
            && (!ts[|ts| - 1].Bare? ==> IsLargest(ts))
  {
    hide Number;
    var init, last := ts[..|ts| - 1], ts[|ts| - 1];
    assert forall p | 0 <= p < |init| :: ts[p] == init[p];
    if !last.Bare? && Largest(ts) != BareCount(ts) {
      if Largest(ts) == Largest(init) {
        var p :| 0 <= p < |init| && init[p].Numbered? && Number(init[p].digits) == Largest(init);
        assert ts[p].Numbered?;
      } else {
        assert ts[|ts| - 1].Numbered?;
      }
    }
  }

  /** Adding a last token: only a bare one can mix the statement. */
  lemma UnmixedInit(ts: seq<Token>)
    requires ts != []
    ensures var init, last := ts[..|ts| - 1], ts[|ts| - 1];
            Unmixed(ts)
            <==> (Unmixed(init)
                  && (last.Bare? ==> forall p | 0 <= p < |init| && init[p].Numbered? ::
                      Number(init[p].digits) <= BareCount(init)))
  {
    var init := ts[..|ts| - 1];
    hide BareCount, Number;
    assert forall q | 0 <= q < |init| :: init[..q] == ts[..q];
    if Unmixed(ts) {
      assert Unmixed(init);
    }
  }

  /** Statements with only numbered or only bare placeholders are unmixed. */
  lemma OneKindIsUnmixed(ts: seq<Token>)
    requires (forall t | t in ts :: !t.Bare?) || (forall t | t in ts :: !t.Numbered?)
    ensures Unmixed(ts)
  {
  }

  /** A mixed statement: SQLite reads the bare placeholder of `?5,?` as the sixth value, the scanner as the first. */
  lemma MixedDiffers()
    ensures Lex("?5,?") == [Numbered("5"), Plain(','), Bare] && !Unmixed(Lex("?5,?"))
    ensures SqliteIndices(Lex("?5,?")) == [4, 5] && ScannedIndices(Lex("?5,?")) == [4, 0]
  {
    MixedLexed();
    MixedTokensDiffer();
    NumberingsAgreeExactly(Lex("?5,?"));
  }

  lemma MixedLexed()
    ensures Lex("?5,?") == [Numbered("5"), Plain(','), Bare]
  {
    assert "?5,?"[1..] == "5,?" && "5,?"[1..] == ",?" && ",?"[1..] == "?" && "?"[1..] == "";
    assert DigitCount("5,?") == 1 && DigitCount("") == 0;
    assert "?5,?"[1..2] == "5" && First("?5,?") == Numbered("5") && TextOf(Numbered("5")) == "?5";
    assert "?5,?"[2..] == ",?" && First(",?") == Plain(',') && First("?") == Bare;
    assert Lex("?") == [Bare] && Lex(",?") == [Plain(',')] + Lex("?");
  }

  lemma MixedTokensDiffer()
    ensures var ts := [Numbered("5"), Plain(','), Bare];
            SqliteIndices(ts) == [4, 5] && ScannedIndices(ts) == [4, 0]
  {
    var ts := [Numbered("5"), Plain(','), Bare];
    assert ts[..2] == [Numbered("5"), Plain(',')] && ts[..2][..1] == [Numbered("5")] && ts[..2][..1][..0] == [];
    assert Number("5") == 5 by {
      assert "5"[..0] == "";
    }
    assert ts[..1] == [Numbered("5")] && ts[..0] == [];
    assert SqliteIndices(ts[..1]) == [4] && ScannedIndices(ts[..1]) == [4];
    assert Largest(ts[..1]) == 5 && BareCount(ts[..1]) == 0;
    assert SqliteIndices(ts[..2]) == [4] && ScannedIndices(ts[..2]) == [4];
    assert Largest(ts[..2]) == 5 && BareCount(ts[..2]) == 0;
  }

  // ----- the scanner -----

  /** The output text for an input text. */
  function Rewritten(s: string): string {
    Source(Blanked(Lex(s)))
  }

  lemma OneMore(done: seq<Token>, t: Token)
    ensures Source(Blanked(done + [t])) == Source(Blanked(done)) + TextOf(Blank(t))
    ensures BareCount(done + [t]) == BareCount(done) + (if t.Bare? then 1 else 0)
    ensures ScannedIndices(done + [t])
         == ScannedIndices(done)
             + (if t.Bare? then [BareCount(done)] else if t.Numbered? then [Number(t.digits) - 1] else [])
  {
    assert (done + [t])[..|done|] == done;
    assert Blanked(done + [t]) == Blanked(done) + [Blank(t)];
    SourceSplit(Blanked(done), [Blank(t)]);
  }

  lemma LexTail(s: string, i: nat, n: nat)
    requires i < |s| && n == |TextOf(First(s[i..]))|
    ensures i + n <= |s| && Lex(s[i..]) == [First(s[i..])] + Lex(s[i + n..])
  {
    assert s[i..][n..] == s[i + n..];
  }

  /** One character more or two more of a literal, on a suffix. */
  lemma LiteralTail(s: string, i: nat, q: char)
    requires i < |s|
    ensures LiteralLength(s[i..], q)
         == if s[i] != q then 1 + LiteralLength(s[i + 1..], q)
            else if i + 1 < |s| && s[i + 1] == q then 2 + LiteralLength(s[i + 2..], q)
            else 1
  {
    assert s[i..][1..] == s[i + 1..];
    if i + 1 < |s| {
      assert s[i..][2..] == s[i + 2..];
    }
  }

  lemma DigitTail(s: string, i: nat)
    requires i <= |s|
    ensures DigitCount(s[i..]) == if i == |s| || !IsDigit(s[i]) then 0 else 1 + DigitCount(s[i + 1..])
  {
    if i < |s| {
      assert s[i..][1..] == s[i + 1..];
    }
  }

  method SkipDigits(s: string, start: nat) returns (i: nat)
    requires start <= |s|
    ensures i == start + DigitCount(s[start..]) <= |s|
  {
    i := start;
    while i < |s| && IsDigit(s[i])
      invariant i <= |s| && i - start + DigitCount(s[i..]) == DigitCount(s[start..])
    {
      DigitTail(s, i);
      i := i + 1;
    }
    DigitTail(s, i);
  }

  /** Inside the literal opened at `start`: the part up to `i` is copied, the rest is still to come. */
  ghost predicate Inside(s: string, start: nat, i: nat, quote: char) {
    && start < i <= |s| && quote == s[start] && IsQuote(quote)
    && i - start + LiteralLength(s[i..], quote) == 1 + LiteralLength(s[start + 1..], quote)
  }

  /** `done` is the text before `i`, and the rest are the scanner's results for it. */
  ghost predicate Scanned(s: string, done: seq<Token>, i: nat, out: string, indices: seq<int>, anonymous: nat) {
    && i <= |s| && Lex(s) == done + Lex(s[i..]) && out == Source(Blanked(done))
    && indices == ScannedIndices(done) && anonymous == BareCount(done)
  }

  lemma ScanStart(s: string)
    ensures Scanned(s, [], 0, "", [], 0)
  {
    assert s[0..] == s;
  }

  lemma ScanEnd(s: string, i: nat)
    requires i == |s|
    ensures Lex(s[i..]) == [] && forall q :: LiteralLength(s[i..], q) == 0
  {
  }

  /** One more token scanned. */
  lemma ScanToken(s: string, done: seq<Token>, i: nat, out: string, indices: seq<int>, anonymous: nat, t: Token)
    requires Scanned(s, done, i, out, indices, anonymous) && i < |s| && First(s[i..]) == t
    ensures Scanned(s, done + [t], i + |TextOf(t)|, out + TextOf(Blank(t)),
      if t.Bare? then indices + [anonymous] else if t.Numbered? then indices + [Number(t.digits) - 1] else indices,
      if t.Bare? then anonymous + 1 else anonymous)
  {
    hide Lex, First, Source, Blanked, BareCount, ScannedIndices, Number, TextOf;
    LexTail(s, i, |TextOf(t)|);
    OneMore(done, t);
    var tail := Lex(s[i + |TextOf(t)|..]);
    assert done + ([t] + tail) == done + [t] + tail;
  }

  /** The literal from its opening quote to where the scanner closes it. */
  lemma FirstLiteral(s: string, start: nat, i: nat)
    requires start < i <= |s| && IsQuote(s[start])
    requires i - start == 1 + LiteralLength(s[start + 1..], s[start])
    ensures First(s[start..]) == Literal(s[start..i])
  {
    assert s[start..][1..] == s[start + 1..];
    assert s[start..][..i - start] == s[start..i];
  }

  lemma FirstOther(s: string, i: nat)
    requires i < |s| && !IsQuote(s[i])
    ensures First(s[i..])
         == if s[i] != '?' then Plain(s[i])
            else if DigitCount(s[i + 1..]) == 0 then Bare
            else Numbered(s[i + 1..i + 1 + DigitCount(s[i + 1..])])
  {
    assert s[i..][1..] == s[i + 1..];
    var n := DigitCount(s[i + 1..]);
    assert s[i..][1..1 + n] == s[i + 1..i + 1 + n];
  }

  lemma InsideOn(s: string, start: nat, i: nat, quote: char)
    requires Inside(s, start, i, quote) && i < |s|
    ensures start < i && quote == s[start] && s[start..i] + [s[i]] == s[start..i + 1]
    ensures s[i] != quote ==> Inside(s, start, i + 1, quote)
    ensures s[i] == quote && i + 1 < |s| && s[i + 1] == quote
            ==> Inside(s, start, i + 2, quote) && s[start..i] + [quote] + [quote] == s[start..i + 2]
    ensures s[i] == quote && !(i + 1 < |s| && s[i + 1] == quote)
            ==> i + 1 - start == 1 + LiteralLength(s[start + 1..], quote)
  {
    LiteralTail(s, i, quote);
  }

  lemma ScanPlain(s: string, done: seq<Token>, i: nat, out: string, indices: seq<int>, anonymous: nat)
    requires Scanned(s, done, i, out, indices, anonymous) && i < |s| && !IsQuote(s[i]) && s[i] != '?'
    ensures Scanned(s, done + [Plain(s[i])], i + 1, out + [s[i]], indices, anonymous)
  {
    hide Scanned, First;
    FirstOther(s, i);
    ScanToken(s, done, i, out, indices, anonymous, Plain(s[i]));
  }

  lemma ScanSlot(s: string, done: seq<Token>, i: nat, end: nat, out: string, indices: seq<int>, anonymous: nat)
    requires Scanned(s, done, i, out, indices, anonymous) && i < |s| && s[i] == '?'
             && end == i + 1 + DigitCount(s[i + 1..])
    ensures end == i + 1 ==> Scanned(s, done + [Bare], end, out + ['?'], indices + [anonymous], anonymous + 1)
    ensures end > i + 1
            ==> Scanned(s, done + [Numbered(s[i + 1..end])], end, out + ['?'], indices + [Number(s[i + 1..end]) - 1],
                        anonymous)
  {
    hide Scanned, First, Number, DigitCount;
    FirstOther(s, i);
    if end == i + 1 {
      ScanToken(s, done, i, out, indices, anonymous, Bare);
    } else {
      ScanToken(s, done, i, out, indices, anonymous, Numbered(s[i + 1..end]));
    }
  }

  /** The scanner is in the literal opened at `start`, with its text copied up to `i`. */
  ghost predicate Copying(s: string, done: seq<Token>, start: nat, i: nat, quote: char,
                          before: string, out: string, indices: seq<int>, anonymous: nat) {
    Inside(s, start, i, quote) && Scanned(s, done, start, before, indices, anonymous) && out == before + s[start..i]
  }

  lemma CopyStart(s: string, done: seq<Token>, start: nat, out: string, indices: seq<int>, anonymous: nat)
    requires Scanned(s, done, start, out, indices, anonymous) && start < |s| && IsQuote(s[start])
    ensures Copying(s, done, start, start + 1, s[start], out, out + [s[start]], indices, anonymous)
  {
  }

  lemma CopyOn(s: string, done: seq<Token>, start: nat, i: nat, quote: char,
               before: string, out: string, indices: seq<int>, anonymous: nat)
    requires Copying(s, done, start, i, quote, before, out, indices, anonymous) && i < |s|
    ensures s[i] != quote ==> Copying(s, done, start, i + 1, quote, before, out + [s[i]], indices, anonymous)
    ensures s[i] == quote && i + 1 < |s| && s[i + 1] == quote
            ==> Copying(s, done, start, i + 2, quote, before, out + [quote] + [quote], indices, anonymous)
    ensures s[i] == quote && !(i + 1 < |s| && s[i + 1] == quote)
            ==> start <= i && Scanned(s, done + [Literal(s[start..i + 1])], i + 1, out + [quote], indices, anonymous)
  {
    hide LiteralLength, Scanned;
    InsideOn(s, start, i, quote);
    assert out + [s[i]] == before + (s[start..i] + [s[i]]);
    if s[i] == quote {
      if i + 1 < |s| && s[i + 1] == quote {
        assert out + [quote] + [quote] == before + (s[start..i] + [quote] + [quote]);
      } else {
        FirstLiteral(s, start, i + 1);
        hide Inside;
        ScanToken(s, done, start, before, indices, anonymous, Literal(s[start..i + 1]));
      }
    }
  }

  lemma CopyEnd(s: string, done: seq<Token>, start: nat, i: nat, quote: char,
                before: string, out: string, indices: seq<int>, anonymous: nat)
    requires Copying(s, done, start, i, quote, before, out, indices, anonymous) && i == |s|
    ensures start < i && Scanned(s, done + [Literal(s[start..i])], i, out, indices, anonymous)
  {
    hide Scanned;
    ScanEnd(s, i);
    FirstLiteral(s, start, i);
    ScanToken(s, done, start, before, indices, anonymous, Literal(s[start..i]));
  }

  /** One more than the largest number that a machine word holds. */
  const WORD := 0x1_0000_0000_0000_0000

  /** The number fits the word and, where arithmetic is checked, one can be taken from it. */
  predicate Parses(t: Token, checked: bool) {
    t.Numbered? ==> Number(t.digits) < WORD && (checked ==> Number(t.digits) > 0)
  }

  lemma ScannedTokens(s: string, done: seq<Token>, i: nat, out: string, indices: seq<int>, anonymous: nat)
    requires Scanned(s, done, i, out, indices, anonymous)
    ensures forall t | t in done :: t in Lex(s)
  {
  }

  /**
   The scanner: numbers leave the text and become value indices. It gives up at a number
   that does not fit the word, and at zero where arithmetic is checked; unchecked, zero
   wraps around to an index that no value has, for which -1 stands.
   */
  method Rewrite(s: string, checked: bool) returns (r: Option<(string, seq<int>)>)
    ensures r.Some? <==> forall t | t in Lex(s) :: Parses(t, checked)
    ensures r.Some? ==> r.value == (Rewritten(s), ScannedIndices(Lex(s)))
  {
    hide Lex, First, ScannedIndices, Number, DigitCount, Scanned, Copying, Rewritten;
    var out, indices := "", [];
    var i, quote, anonymous := 0, '\0', 0;
    ghost var done, start, before := [], 0, "";
    ScanStart(s);
    while i < |s|
      invariant i <= |s| && forall t | t in done :: Parses(t, checked)
      invariant quote == '\0' ==> Scanned(s, done, i, out, indices, anonymous)
      invariant quote != '\0' ==> Copying(s, done, start, i, quote, before, out, indices, anonymous)
    {
      var b := s[i];
      if quote != '\0' {
        CopyOn(s, done, start, i, quote, before, out, indices, anonymous);
        out := out + [b];
        i := i + 1;
        if b == quote {
          if i < |s| && s[i] == quote {
            out := out + [quote];
            i := i + 1;
          } else {
            done := done + [Literal(s[start..i])];
            quote := '\0';
          }
        }
        continue;
      }
      if b == '\'' || b == '"' || b == '`' {
        CopyStart(s, done, i, out, indices, anonymous);
        start, before := i, out;
        quote := b;
        out := out + [b];
        i := i + 1;
        continue;
      }
      if b == '?' {
        i := i + 1;
        var digitStart := i;
        i := SkipDigits(s, i);
        ScanSlot(s, done, digitStart - 1, i, out, indices, anonymous);
        done := done + [if i == digitStart then Bare else Numbered(s[digitStart..i])];
        if i == digitStart {
          indices := indices + [anonymous];
          anonymous := anonymous + 1;
        } else {
          var number := Number(s[digitStart..i]);
          indices := indices + [number - 1];
          if number >= WORD || (checked && number == 0) {
            ScannedTokens(s, done, i, out + ['?'], indices, anonymous);
            ghost var t := done[|done| - 1];
            assert t in done && !Parses(t, checked);
            assert t in Lex(s);
            return None;
          }
        }
        out := out + ['?'];
        continue;
      }
      ScanPlain(s, done, i, out, indices, anonymous);
      done := done + [Plain(b)];
      out := out + [b];
      i := i + 1;
    }
    if quote != '\0' {
      CopyEnd(s, done, start, i, quote, before, out, indices, anonymous);
      done := done + [Literal(s[start..i])];
    }
    ScannedAll(s, done, i, out, indices, anonymous);
    r := Some((out, indices));
  }

  lemma ScannedAll(s: string, done: seq<Token>, i: nat, out: string, indices: seq<int>, anonymous: nat)
    requires Scanned(s, done, i, out, indices, anonymous) && i == |s|
    ensures out == Rewritten(s) && indices == ScannedIndices(Lex(s)) && Lex(s) == done
  {
    hide ScannedIndices, Source, Blanked, BareCount;
    assert s[i..] == "" && done + [] == done;
    assert Lex(s) == done;
  }

  lemma {:induction false} IndicesPrefix(ts: seq<Token>, k: nat)
    requires k <= |ts|
    ensures ScannedIndices(ts[..k]) <= ScannedIndices(ts) && SqliteIndices(ts[..k]) <= SqliteIndices(ts)
    decreases |ts|
  {
    if k < |ts| {
      var init := ts[..|ts| - 1];
      IndicesPrefix(init, k);
      assert init[..k] == ts[..k];
    } else {
      assert ts[..k] == ts;
    }
  }

  /** A placeholder written with the decimal number `n` names the n-th value, for the scanner and for SQLite. */
  lemma RecordsDecimal(s: string, k: nat, n: nat)
    requires k < |Lex(s)| && Lex(s)[k] == Numbered(Decimal(n))
    ensures var ts := Lex(s); var m := |ScannedIndices(ts[..k])|;
            && m < |ScannedIndices(ts)| && ScannedIndices(ts)[m] == n - 1
            && m < |SqliteIndices(ts)| && SqliteIndices(ts)[m] == n - 1
  {
    hide Lex, Number, Decimal;
    NumberOfDecimal(n);
    var ts := Lex(s);
    IndicesPrefix(ts, k + 1);
    IndicesCount(ts[..k]);
    assert ts[..k + 1][..k] == ts[..k];
  }

  /** And so it is read from the text, after any text without quotes and placeholders, if no digit follows. */
  lemma RecordsWritten(before: string, n: nat, rest: string)
    requires Unmarked(before) && (rest == "" || rest[0] !in DIGITS)
    ensures var s := before + ("?" + Decimal(n) + rest);
            && ScannedIndices(Lex(s)) != [] && ScannedIndices(Lex(s))[0] == n - 1
            && Rewritten(s) == before + ("?" + Rewritten(rest))
  {
    hide Lex, Decimal, Unmarked, ScannedIndices, Source, Blanked;
    var s := before + ("?" + Decimal(n) + rest);
    PlainReads(before, "?" + Decimal(n) + rest);
    DecimalReads(n, rest);
    NothingRecorded(before);
    var slot := Numbered(Decimal(n));
    assert Lex(s) == Plains(before) + ([slot] + Lex(rest));
    assert Lex(s)[..|before|] == Plains(before) && Lex(s)[|before|] == slot;
    RecordsDecimal(s, |before|, n);
    BlankedAround(Plains(before), slot, Lex(rest));
  }

  lemma BlankedAround(before: seq<Token>, slot: Token, rest: seq<Token>)
    requires slot.Numbered?
    ensures Source(Blanked(before + ([slot] + rest))) == Source(Blanked(before)) + ("?" + Source(Blanked(rest)))
  {
    var b, r := Blanked(before), Blanked(rest);
    assert Blanked(before + ([slot] + rest)) == b + ([Bare] + r);
    SourceSplit(b, [Bare] + r);
    assert ([Bare] + r)[1..] == r;
  }

  lemma {:induction false} NothingRecorded(s: string)
    ensures ScannedIndices(Plains(s)) == [] && Source(Blanked(Plains(s))) == s
  {
    if s != "" {
      var init := s[..|s| - 1];
      NothingRecorded(init);
      assert Plains(s)[..|s| - 1] == Plains(init);
      assert Blanked(Plains(s)) == Blanked(Plains(init)) + [Plain(s[|s| - 1])];
      SourceSplit(Blanked(Plains(init)), [Plain(s[|s| - 1])]);
      assert Source([Plain(s[|s| - 1])]) == [s[|s| - 1]] by {
        assert [Plain(s[|s| - 1])][1..] == [];
      }
      assert s == init + [s[|s| - 1]];
    }
  }

  /** Scanning the output again changes nothing: literals stay, and the slots are the values in order. */
  lemma RescanIsPositional(s: string)
    ensures Lex(Rewritten(s)) == Blanked(Lex(s))
    ensures Rewritten(Rewritten(s)) == Rewritten(s)
    ensures var n := |ScannedIndices(Lex(s))|; ScannedIndices(Lex(Rewritten(s))) == seq(n, k => k)
  {
    var ts := Lex(s);
    LexIsCanonical(s);
    BlankedIsCanonical(ts);
    LexOfSource(Blanked(ts));
    assert Blanked(Blanked(ts)) == Blanked(ts);
    BlankedInOrder(ts);
  }

  lemma {:induction false} BlankedInOrder(ts: seq<Token>)
    ensures var n := |ScannedIndices(ts)|; BareCount(Blanked(ts)) == n && ScannedIndices(Blanked(ts)) == seq(n, k => k)
  {
    if ts != [] {
      BlankedInOrder(ts[..|ts| - 1]);
      assert Blanked(ts)[..|ts| - 1] == Blanked(ts[..|ts| - 1]);
    }
  }

  // ----- binding -----

  datatype BindError = InvalidParameterCount(wanted: int, given: nat)

  predicate InRange(indices: seq<int>, n: nat) {
    forall k | 0 <= k < |indices| :: 0 <= indices[k] < n
  }

  function Picked<V>(values: seq<V>, indices: seq<int>): (r: seq<V>)
    requires InRange(indices, |values|)
    ensures |r| == |indices|
  {
    seq(|indices|, k requires 0 <= k < |indices| => values[indices[k]])
  }

  /** The positional parameters, or the first index no value was given for. */
  method BindValues<V>(values: seq<V>, indices: seq<int>) returns (r: Result<seq<V>, BindError>)
    ensures r.Ok? <==> InRange(indices, |values|)
    ensures r.Ok? ==> r.value == Picked(values, indices)
    ensures r.Err? ==> exists k | 0 <= k < |indices| && InRange(indices[..k], |values|) ::
                         !(0 <= indices[k] < |values|) && r.error == InvalidParameterCount(indices[k] + 1, |values|)
  {
    var params := [];
    for k := 0 to |indices|
      invariant InRange(indices[..k], |values|) && |params| == k
      invariant forall j | 0 <= j < k :: 0 <= indices[j] < |values| && params[j] == values[indices[j]]
    {
      var i := indices[k];
      if !(0 <= i < |values|) {
        return Err(InvalidParameterCount(i + 1, |values|));
      }
      params := params + [values[i]];
    }
    r := Ok(params);
  }

  /** A statement with its values in place. */
  datatype Part<V> = Text(t: Token) | Value(v: V)

  function Bound<V>(ts: seq<Token>, values: seq<V>, indices: seq<int>): (r: seq<Part<V>>)
    requires |indices| == |ScannedIndices(ts)| && InRange(indices, |values|)
    ensures |r| == |ts|
  {
    if ts == [] then []
    else
      var init, last := ts[..|ts| - 1], ts[|ts| - 1];
      if IsSlot(last) then
        var m := |indices| - 1;
        Bound(init, values, indices[..m]) + [Value(values[indices[m]])]
      else Bound(init, values, indices) + [Text(last)]
  }

  /** MySQL binds the k-th placeholder of the rewritten text to the k-th parameter. */
  lemma {:induction false} PositionalBound<V>(ts: seq<Token>, values: seq<V>, indices: seq<int>, params: seq<V>)
    requires |indices| == |ScannedIndices(ts)| <= |params| && InRange(indices, |values|)
    requires forall k | 0 <= k < |indices| :: params[k] == values[indices[k]]
    ensures |ScannedIndices(Blanked(ts))| == |indices|
    ensures Bound(Blanked(ts), params, seq(|indices|, k => k)) == Bound(ts, values, indices)
  {
    hide BareCount, Number, SqliteIndices;
    IndicesCount(ts);
    if ts != [] {
      var init := ts[..|ts| - 1];
      assert Blanked(ts)[..|ts| - 1] == Blanked(init);
      var m := |ScannedIndices(init)|;
      assert seq(|indices|, k => k)[..m] == seq(m, k => k);
      PositionalBound(init, values, indices[..m], params);
      assert !IsSlot(ts[|ts| - 1]) ==> indices[..m] == indices;
    }
  }

  /** Distinct values tell two numberings apart. */
  lemma {:induction false} BoundInjective<V>(ts: seq<Token>, values: seq<V>, x: seq<int>, y: seq<int>)
    requires |x| == |y| == |ScannedIndices(ts)| && InRange(x, |values|) && InRange(y, |values|)
    requires forall i, j | 0 <= i < j < |values| :: values[i] != values[j]
    requires Bound(ts, values, x) == Bound(ts, values, y)
    ensures x == y
  {
    if ts != [] {
      var init := ts[..|ts| - 1];
      var m := |ScannedIndices(init)|;
      var left, right := Bound(ts, values, x), Bound(ts, values, y);
      if IsSlot(ts[|ts| - 1]) {
        assert Bound(init, values, x[..m]) == left[..|init|] && Bound(init, values, y[..m]) == right[..|init|];
        BoundInjective(init, values, x[..m], y[..m]);
        assert left[|init|] == Value(values[x[m]]) && right[|init|] == Value(values[y[m]]);
        assert x == x[..m] + [x[m]] && y == y[..m] + [y[m]];
      } else {
        assert Bound(init, values, x) == left[..|init|] && Bound(init, values, y) == right[..|init|];
        BoundInjective(init, values, x, y);
      }
    }
  }

  /** What SQLite runs for a text and its values. */
  function SqliteMeaning<V>(s: string, values: seq<V>): seq<Part<V>>
    requires InRange(SqliteIndices(Lex(s)), |values|)
  {
    IndicesCount(Lex(s));
    Bound(Lex(s), values, SqliteIndices(Lex(s)))
  }

  /** What MySQL runs for a text and positional parameters. */
  function MysqlMeaning<V>(s: string, params: seq<V>): seq<Part<V>>
    requires |params| == |ScannedIndices(Lex(s))|
  {
    Bound(Lex(s), params, seq(|params|, k => k))
  }

  /**
   The rewritten statement with its positional parameters is the statement SQLite
   would run, whatever the values, exactly when the text is unmixed.
   */
  lemma SameStatementExactly<V>(s: string, values: seq<V>)
    requires InRange(ScannedIndices(Lex(s)), |values|) && InRange(SqliteIndices(Lex(s)), |values|)
    ensures |ScannedIndices(Lex(Rewritten(s)))| == |ScannedIndices(Lex(s))|
    ensures Unmixed(Lex(s)) ==>
              MysqlMeaning(Rewritten(s), Picked(values, ScannedIndices(Lex(s)))) == SqliteMeaning(s, values)
    ensures (forall i, j | 0 <= i < j < |values| :: values[i] != values[j])
            && MysqlMeaning(Rewritten(s), Picked(values, ScannedIndices(Lex(s)))) == SqliteMeaning(s, values)
            ==> Unmixed(Lex(s))
  {
    hide Lex, ScannedIndices, SqliteIndices, Unmixed, Source;
    var ts := Lex(s);
    var indices := ScannedIndices(ts);
    RescanIsPositional(s);
    IndicesCount(ts);
    NumberingsAgreeExactly(ts);
    PositionalBound(ts, values, indices, Picked(values, indices));
    hide Bound, Picked;
    if (forall i, j | 0 <= i < j < |values| :: values[i] != values[j])
       && MysqlMeaning(Rewritten(s), Picked(values, indices)) == SqliteMeaning(s, values) {
      BoundInjective(ts, values, indices, SqliteIndices(ts));
    }
  }
}
