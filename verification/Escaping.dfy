/** Chained replacements that escape three characters, and the two readers they
    are written for: the LIKE matcher and the reader of PDF literal strings. */
module Escaping {
  import opened Text

  /** Every occurrence of one character replaced by a text. */
  function ReplaceAll(s: string, c: char, r: string): string {
    if s == [] then [] else (if s[0] == c then r else [s[0]]) + ReplaceAll(s[1..], c, r)
  }

  /** The backslash first, then two more characters, each in its own pass. */
  function EscapeChain(s: string, a: char, b: char): string {
    ReplaceAll(ReplaceAll(ReplaceAll(s, '\\', "\\\\"), a, ['\\', a]), b, ['\\', b])
  }

  function EscapeChar(c: char, a: char, b: char): string {
    if c == '\\' || c == a || c == b then ['\\', c] else [c]
  }

  function Escape(s: string, a: char, b: char): string {
    if s == [] then [] else EscapeChar(s[0], a, b) + Escape(s[1..], a, b)
  }

  lemma {:induction false} ReplaceConcat(s: string, t: string, c: char, r: string)
    ensures ReplaceAll(s + t, c, r) == ReplaceAll(s, c, r) + ReplaceAll(t, c, r)
  {
    if s == [] {
      assert s + t == t;
    } else {
      assert (s + t)[0] == s[0] && (s + t)[1..] == s[1..] + t;
      ReplaceConcat(s[1..], t, c, r);
    }
  }

  lemma ReplaceOne(c: char, d: char, r: string)
    ensures ReplaceAll([c], d, r) == if c == d then r else [c]
  {
    assert [c][1..] == [];
  }

  lemma ReplaceTwo(c: char, e: char, d: char, r: string)
    ensures ReplaceAll([c, e], d, r) == (if c == d then r else [c]) + (if e == d then r else [e])
  {
    assert [c, e] == [c] + [e];
    ReplaceConcat([c], [e], d, r);
    ReplaceOne(c, d, r);
    ReplaceOne(e, d, r);
  }

  /** The three passes together escape each character once: no pass escapes what
      an earlier one inserted. */
  lemma {:induction false} ChainIsOnePass(s: string, a: char, b: char)
    requires a != '\\' && b != '\\' && a != b
    ensures EscapeChain(s, a, b) == Escape(s, a, b)
  {
    if s != [] {
      var c, rest := s[0], s[1..];
      ChainIsOnePass(rest, a, b);
      var one, one' := ReplaceAll([c], '\\', "\\\\"), ReplaceAll(rest, '\\', "\\\\");
      assert s == [c] + rest;
      ReplaceConcat([c], rest, '\\', "\\\\");
      ReplaceConcat(one, one', a, ['\\', a]);
      var two, two' := ReplaceAll(one, a, ['\\', a]), ReplaceAll(one', a, ['\\', a]);
      ReplaceConcat(two, two', b, ['\\', b]);
      ReplaceOne(c, '\\', "\\\\");
      ChainOfOne(c, a, b);
    }
  }

  lemma ChainOfOne(c: char, a: char, b: char)
    requires a != '\\' && b != '\\' && a != b
    ensures EscapeChain([c], a, b) == EscapeChar(c, a, b)
  {
    ReplaceOne(c, '\\', "\\\\");
    if c == '\\' {
      ReplaceTwo('\\', '\\', a, ['\\', a]);
      ReplaceTwo('\\', '\\', b, ['\\', b]);
    } else {
      ReplaceOne(c, a, ['\\', a]);
      if c == a { ReplaceTwo('\\', a, b, ['\\', b]); } else { ReplaceOne(c, b, ['\\', b]); }
    }
  }

  // ----- LIKE patterns -----

  /** The matcher of section 8.5 of ISO/IEC 9075-2 with the backslash as escape
      character; `fold` compares letters regardless of case. */
  predicate Like(p: string, t: string, fold: char -> char)
    decreases |p| + |t|
  {
    if p == [] then t == []
    else if p[0] == '\\' then
      |p| >= 2 && t != [] && fold(p[1]) == fold(t[0]) && Like(p[2..], t[1..], fold)
    else if p[0] == '%' then Like(p[1..], t, fold) || (t != [] && Like(p, t[1..], fold))
    else if p[0] == '_' then t != [] && Like(p[1..], t[1..], fold)
    else t != [] && fold(p[0]) == fold(t[0]) && Like(p[1..], t[1..], fold)
  }

  predicate SameFolded(a: string, b: string, fold: char -> char) {
    |a| == |b| && forall i :: 0 <= i < |a| ==> fold(a[i]) == fold(b[i])
  }

  predicate HoldsAt(t: string, q: string, i: int, fold: char -> char) {
    0 <= i <= |t| - |q| && SameFolded(q, t[i..i + |q|], fold)
  }

  /** The text holds the query as a substring, letters compared folded. */
  ghost predicate Holds(t: string, q: string, fold: char -> char) {
    exists i :: HoldsAt(t, q, i, fold)
  }

  /** The value pushed for a search, none for a blank query. */
  function SearchPattern(query: string): Option<string> {
    var trimmed := Trim(query);
    if trimmed == "" then None else Some("%" + EscapeChain(trimmed, '%', '_') + "%")
  }

  lemma {:induction false} LikeAnything(t: string, fold: char -> char)
    ensures Like("%", t, fold)
  {
    if t != [] { LikeAnything(t[1..], fold); } else { assert "%"[1..] == []; }
  }

  /** An escaped character matches exactly that character. */
  lemma LikeHead(c: char, p: string, t: string, fold: char -> char)
    ensures Like(EscapeChar(c, '%', '_') + p, t, fold) <==> t != [] && fold(c) == fold(t[0]) && Like(p, t[1..], fold)
  {
    var all := EscapeChar(c, '%', '_') + p;
    if c == '\\' || c == '%' || c == '_' {
      assert all[0] == '\\' && all[1] == c && all[2..] == p;
    } else {
      assert all[0] == c && all[1..] == p;
    }
  }

  /** An escaped text matches exactly itself, then the rest of the pattern follows. */
  lemma {:induction false} LikeEscaped(q: string, p: string, t: string, fold: char -> char)
    ensures Like(Escape(q, '%', '_') + p, t, fold) <==>
            |q| <= |t| && SameFolded(q, t[..|q|], fold) && Like(p, t[|q|..], fold)
    decreases q
  {
    hide Like, EscapeChar;
    if q == [] {
      assert Escape(q, '%', '_') + p == p && t[0..] == t;
    } else {
      var rest := Escape(q[1..], '%', '_') + p;
      assert Escape(q, '%', '_') + p == EscapeChar(q[0], '%', '_') + rest;
      LikeHead(q[0], rest, t, fold);
      if t != [] {
        LikeEscaped(q[1..], p, t[1..], fold);
        if |q| <= |t| {
          assert t[1..][..|q| - 1] == t[..|q|][1..] && t[1..][|q| - 1..] == t[|q|..];
          FoldedHead(q, t[..|q|], fold);
        }
      }
    }
  }

  lemma FoldedHead(q: string, t: string, fold: char -> char)
    requires |q| == |t| > 0
    ensures SameFolded(q, t, fold) <==> fold(q[0]) == fold(t[0]) && SameFolded(q[1..], t[1..], fold)
  {
    if fold(q[0]) == fold(t[0]) && SameFolded(q[1..], t[1..], fold) {
      forall i | 0 <= i < |q| ensures fold(q[i]) == fold(t[i]) {
        if i > 0 { assert q[i] == q[1..][i - 1] && t[i] == t[1..][i - 1]; }
      }
    }
  }

  /** A leading percent sign tries every position. */
  lemma {:induction false} LikePercent(p: string, t: string, fold: char -> char)
    ensures Like("%" + p, t, fold) <==> exists i :: 0 <= i <= |t| && Like(p, t[i..], fold)
    decreases |t|
  {
    assert ("%" + p)[1..] == p && t[0..] == t;
    if t != [] {
      LikePercent(p, t[1..], fold);
      forall i | 1 <= i <= |t| ensures t[i..] == t[1..][i - 1..] {}
      if i :| 0 <= i <= |t| - 1 && Like(p, t[1..][i..], fold) { assert Like(p, t[i + 1..], fold); }
      if i :| 0 <= i <= |t| && Like(p, t[i..], fold) { if i > 0 { assert Like(p, t[1..][i - 1..], fold); } }
    }
  }

  /** The search pattern of a query matches a text exactly when the text contains
      the trimmed query, whatever backslashes, percent signs and underscores it has. */
  lemma SearchFindsSubstring(query: string, t: string, fold: char -> char)
    requires Trim(query) != ""
    ensures SearchPattern(query).Some?
    ensures Like(SearchPattern(query).value, t, fold) <==> Holds(t, Trim(query), fold)
  {
    hide Like, EscapeChain, Escape, Trim;
    var q := Trim(query);
    ChainIsOnePass(q, '%', '_');
    var e := Escape(q, '%', '_');
    assert "%" + e + "%" == "%" + (e + "%");
    LikePercent(e + "%", t, fold);
    forall i | 0 <= i <= |t| ensures Like(e + "%", t[i..], fold) <==> HoldsAt(t, q, i, fold) {
      LikeEscaped(q, "%", t[i..], fold);
      if |q| <= |t| - i {
        LikeAnything(t[i..][|q|..], fold);
        assert t[i..][..|q|] == t[i..i + |q|];
      }
    }
  }

  /** The where clause over several nullable columns, null read as the empty text. */
  ghost predicate Selected(query: string, columns: seq<Option<string>>, fold: char -> char) {
    match SearchPattern(query)
    case None => true
    case Some(p) =>
      exists i :: 0 <= i < |columns| && Like(p, match columns[i] case None => "" case Some(t) => t, fold)
  }

  /** A row is selected exactly when the query is blank or some column that is not
      null contains it. */
  lemma SelectedExactly(query: string, columns: seq<Option<string>>, fold: char -> char)
    ensures Selected(query, columns, fold) <==>
            Trim(query) == "" ||
            exists i :: 0 <= i < |columns| && columns[i].Some? && Holds(columns[i].value, Trim(query), fold)
  {
    hide Like, EscapeChain, Trim, Holds;
    if Trim(query) != "" {
      forall i | 0 <= i < |columns|
        ensures Like(SearchPattern(query).value, match columns[i] case None => "" case Some(t) => t, fold) <==>
                columns[i].Some? && Holds(columns[i].value, Trim(query), fold)
      {
        match columns[i]
        case Some(t) => SearchFindsSubstring(query, t, fold);
        case None =>
          SearchFindsSubstring(query, "", fold);
          EmptyHoldsNothing(Trim(query), fold);
      }
    }
  }

  lemma EmptyHoldsNothing(q: string, fold: char -> char)
    requires q != ""
    ensures !Holds("", q, fold)
  {
  }

  // ----- PDF literal strings -----

  function EscapePdfText(value: string): string {
    EscapeChain(value, '(', ')')
  }

  predicate Octal(c: char) {
    '0' <= c <= '7'
  }

  function OctalRun(s: string, max: nat): nat
    ensures OctalRun(s, max) <= max && OctalRun(s, max) <= |s|
  {
    if max > 0 && s != [] && Octal(s[0]) then 1 + OctalRun(s[1..], max - 1) else 0
  }

  function OctalValue(s: string): nat {
    if s == [] then 0 else OctalValue(s[..|s| - 1]) * 8 + if Octal(s[|s| - 1]) then s[|s| - 1] as int - '0' as int else 0
  }

  /** What the escape sequence after a backslash stands for, and its length
      (table 3 of ISO 32000-1, section 7.3.4.2). */
  function EscapeSequence(s: string): (r: (string, nat))
    requires s != []
    ensures 1 <= r.1 <= |s|
  {
    var c := s[0];
    if c == 'n' then ("\n", 1)
    else if c == 'r' then ("\r", 1)
    else if c == 't' then ("\t", 1)
    else if c == 'b' then ([8 as char], 1)
    else if c == 'f' then ([12 as char], 1)
    else if c == '\r' && |s| >= 2 && s[1] == '\n' then ("", 2)
    else if c == '\r' || c == '\n' then ("", 1)
    else if Octal(c) then ([(OctalValue(s[..OctalRun(s, 3)]) % 256) as char], OctalRun(s, 3))
    else ([c], 1)
  }

  function Prepend(head: string, r: Option<(string, string)>): Option<(string, string)> {
    match r case None => None case Some((text, rest)) => Some((head + text, rest))
  }

  /** Reads a literal string after its opening parenthesis: the text up to the
      matching closing one, and what follows it. An end-of-line marker reads as
      a line feed, balanced parentheses need no backslash. */
  function ReadLiteral(s: string, depth: nat): Option<(string, string)>
    decreases |s|
  {
    if s == [] then None
    else if s[0] == ')' then
      if depth == 0 then Some(("", s[1..])) else Prepend(")", ReadLiteral(s[1..], depth - 1))
    else if s[0] == '(' then Prepend("(", ReadLiteral(s[1..], depth + 1))
    else if s[0] == '\\' then
      if |s| == 1 then None
      else
        var (text, n) := EscapeSequence(s[1..]);
        Prepend(text, ReadLiteral(s[1 + n..], depth))
    else if s[0] == '\r' then
      Prepend("\n", ReadLiteral(if |s| >= 2 && s[1] == '\n' then s[2..] else s[1..], depth))
    else Prepend([s[0]], ReadLiteral(s[1..], depth))
  }

  /** A text with every end-of-line marker turned into a line feed. */
  function LineFeeds(v: string): string {
    if v == [] then []
    else if v[0] == '\r' then "\n" + LineFeeds(if |v| >= 2 && v[1] == '\n' then v[2..] else v[1..])
    else [v[0]] + LineFeeds(v[1..])
  }

  lemma ReadHead(c: char, more: string)
    requires c != '\r'
    ensures ReadLiteral(EscapeChar(c, '(', ')') + more, 0) == Prepend([c], ReadLiteral(more, 0))
  {
    hide OctalRun, OctalValue;
    var all := EscapeChar(c, '(', ')') + more;
    if c == '\\' || c == '(' || c == ')' {
      assert all[1..][0] == c && all[2..] == more;
      assert EscapeSequence(all[1..]) == ([c], 1);
    } else {
      assert all[1..] == more;
    }
  }

  lemma ReadReturn(more: string)
    ensures ReadLiteral("\r" + more, 0) ==
            Prepend("\n", ReadLiteral(if more != [] && more[0] == '\n' then more[1..] else more, 0))
  {
    var all := "\r" + more;
    assert all[1..] == more;
    if more != [] { assert all[1] == more[0] && all[2..] == more[1..]; }
  }

  /** What a reader gets back from an escaped text is the text with its line ends
      normalised, and reading stops exactly at the parenthesis written after it. */
  lemma {:induction false} ReadEscaped(v: string, rest: string)
    ensures ReadLiteral(Escape(v, '(', ')') + ")" + rest, 0) == Some((LineFeeds(v), rest))
    decreases |v|
  {
    hide ReadLiteral, Escape, EscapeChar;
    EscapeFirst(v, rest);
    if v == [] {
      ReadEnd(rest);
    } else {
      var c := v[0];
      var more := Escape(v[1..], '(', ')') + ")" + rest;
      if c == '\r' {
        ReadReturn(more);
        EscapeKeepsFirst(v[1..], rest);
        if |v| >= 2 && v[1] == '\n' {
          assert v[1..][1..] == v[2..];
          EscapeFirst(v[1..], rest);
          assert more[1..] == Escape(v[2..], '(', ')') + ")" + rest;
          ReadEscaped(v[2..], rest);
        } else {
          ReadEscaped(v[1..], rest);
        }
      } else {
        ReadHead(c, more);
        ReadEscaped(v[1..], rest);
      }
    }
  }

  lemma EscapeFirst(v: string, rest: string)
    ensures v == [] ==> Escape(v, '(', ')') + ")" + rest == ")" + rest
    ensures v != [] ==>
      Escape(v, '(', ')') + ")" + rest == EscapeChar(v[0], '(', ')') + (Escape(v[1..], '(', ')') + ")" + rest)
    ensures v != [] && v[0] in "\r\n" ==>
      Escape(v, '(', ')') + ")" + rest == [v[0]] + (Escape(v[1..], '(', ')') + ")" + rest)
  {
  }

  lemma ReadEnd(rest: string)
    ensures ReadLiteral(")" + rest, 0) == Some(("", rest))
  {
    assert (")" + rest)[1..] == rest;
  }

  /** An escaped text starts with a line feed only if the text does. */
  lemma EscapeKeepsFirst(v: string, rest: string)
    ensures (Escape(v, '(', ')') + ")" + rest)[0] == '\n' <==> v != [] && v[0] == '\n'
  {
  }

  lemma {:induction false} LineFeedsExact(v: string)
    ensures |LineFeeds(v)| <= |v|
    ensures LineFeeds(v) == v <==> '\r' !in v
    decreases |v|
  {
    if v != [] {
      assert v == [v[0]] + v[1..];
      if v[0] == '\r' {
        assert LineFeeds(v)[0] == '\n';
        LineFeedsExact(if |v| >= 2 && v[1] == '\n' then v[2..] else v[1..]);
      } else {
        LineFeedsExact(v[1..]);
        assert LineFeeds(v)[1..] == LineFeeds(v[1..]);
      }
    }
  }

  /** The text written into a page reads back unchanged exactly when it has no
      carriage return. */
  lemma PdfTextRoundTrip(v: string, rest: string)
    ensures ReadLiteral(EscapePdfText(v) + ")" + rest, 0) == Some((v, rest)) <==> '\r' !in v
  {
    hide ReadLiteral, EscapeChain, Escape, LineFeeds;
    ChainIsOnePass(v, '(', ')');
    ReadEscaped(v, rest);
    LineFeedsExact(v);
  }
}
