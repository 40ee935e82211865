/**
 * The string handling of `processUserCommand` (app.js:437-572): trimming,
 * the quote-aware split `match(/(?:[^\s"]+|"[^"]*")+/g)` (app.js:438),
 * ASCII-case keyword matching, and the two ways a token becomes an argument
 * (every `"` removed from a path; one leading and one trailing `"` stripped
 * from `write file` content).
 */
module Tokenizer {
  import opened Wrappers
  import opened Paths

  /** The code points of JavaScript's `\s`, which are also those `String.prototype.trim` removes. */
  predicate IsSpace(c: char) {
    var n := c as int;
    || (9 <= n <= 13) || n == 32 || n == 0xA0 || n == 0x1680
    || (0x2000 <= n <= 0x200A) || n == 0x2028 || n == 0x2029
    || n == 0x202F || n == 0x205F || n == 0x3000 || n == 0xFEFF
  }

  // ---------------------------------------------------------------------
  // trim()

  function TrimStart(s: string): (r: string)
    ensures |r| <= |s| && forall k :: 0 <= k < |r| ==> r[k] == s[|s| - |r| + k]
    ensures r == [] || !IsSpace(r[0])
    ensures forall k :: 0 <= k < |s| - |r| ==> IsSpace(s[k])
  {
    if s != [] && IsSpace(s[0]) then
      var r := TrimStart(s[1..]);
      TrimmedAfterSpace(s, r);
      r
    else s
  }

  /** What trimming `s[1..]` kept is also what trimming `s` keeps when `s[0]` is white space. */
  lemma TrimmedAfterSpace(s: string, r: string)
    requires s != [] && IsSpace(s[0])
    requires |r| <= |s| - 1 && forall k :: 0 <= k < |r| ==> r[k] == s[1..][|s| - 1 - |r| + k]
    requires forall k :: 0 <= k < |s| - 1 - |r| ==> IsSpace(s[1..][k])
    ensures forall k :: 0 <= k < |r| ==> r[k] == s[|s| - |r| + k]
    ensures forall k :: 0 <= k < |s| - |r| ==> IsSpace(s[k])
  {
    forall k | 0 <= k < |s| - |r|
      ensures IsSpace(s[k])
    {
      if k > 0 {
        assert s[k] == s[1..][k - 1];
      }
    }
  }

  function TrimEnd(s: string): (r: string)
    ensures |r| <= |s| && forall k :: 0 <= k < |r| ==> r[k] == s[k]
    ensures r == [] || !IsSpace(r[|r| - 1])
    ensures forall k :: |r| <= k < |s| ==> IsSpace(s[k])
  {
    if s != [] && IsSpace(s[|s| - 1]) then TrimEnd(s[..|s| - 1]) else s
  }

  /** `s.trim()`: the string without its leading and trailing white space. */
  function Trim(s: string): string {
    TrimEnd(TrimStart(s))
  }

  // ---------------------------------------------------------------------
  // The token regular expression

  /** The first `"` at or after `i`, if any: where a `"[^"]*"` span that opened just before `i` closes. */
  function ClosingQuote(s: string, i: nat): (r: Option<nat>)
    requires i <= |s|
    ensures r.Some? ==> i <= r.value < |s| && s[r.value] == '"'
    ensures r.Some? ==> forall k :: i <= k < r.value ==> s[k] != '"'
    ensures r.None? ==> forall k :: i <= k < |s| ==> s[k] != '"'
    decreases |s| - i
  {
    if i == |s| then None
    else if s[i] == '"' then Some(i)
    else ClosingQuote(s, i + 1)
  }

  /** A closed `"…"` span: a `"` at each end and none inside. */
  predicate IsQuotedSpan(t: string) {
    |t| >= 2 && t[0] == '"' && t[|t| - 1] == '"' && '"' !in t[1..|t| - 1]
  }

  /** One repetition of the group: a run of plain characters (`[^\s"]+`) or a closed span (`"[^"]*"`). */
  predicate IsPiece(t: string) {
    IsWord(t) || IsQuotedSpan(t)
  }

  function Concat(pieces: seq<string>): string {
    if pieces == [] then "" else pieces[0] + Concat(pieces[1..])
  }

  /** What one match of `(?:[^\s"]+|"[^"]*")+` is: one or more runs and closed spans, back to back. */
  ghost predicate TokenShape(t: string) {
    exists pieces: seq<string> ::
      && pieces != []
      && (forall k :: 0 <= k < |pieces| ==> IsPiece(pieces[k]))
      && Concat(pieces) == t
  }

  /** A character the global match passes over: white space, or a `"` with no `"` after it. */
  predicate Skipped(s: string, p: nat)
    requires p < |s|
  {
    IsSpace(s[p]) || (s[p] == '"' && '"' !in s[p + 1..])
  }

  /**
   * Where a match of `(?:[^\s"]+|"[^"]*")+` that starts at `i` ends: runs of
   * characters that are neither white space nor `"` are taken one by one, a
   * `"` is taken together with everything up to the next `"`, and the match
   * stops at white space, at the end, or at a `"` that has no partner. The
   * result is `i` when nothing matches at `i`.
   */
  function TokenEnd(s: string, i: nat): (e: nat)
    requires i <= |s|
    ensures i <= e <= |s|
    decreases |s| - i
  {
    if i == |s| || IsSpace(s[i]) then i
    else if s[i] != '"' then TokenEnd(s, i + 1)
    else match ClosingQuote(s, i + 1)
      case None => i
      case Some(j) => TokenEnd(s, j + 1)
  }

  /** The global match from `i` on: a failed attempt moves one character on, a match resumes at its end. */
  function TokensFrom(s: string, i: nat): (ts: seq<string>)
    requires i <= |s|
    ensures forall k :: 0 <= k < |ts| ==> ts[k] != []
    decreases |s| - i
  {
    if i == |s| then []
    else
      var e := TokenEnd(s, i);
      if e == i then TokensFrom(s, i + 1)
      else [s[i..e]] + TokensFrom(s, e)
  }

  /** `commandString.trim().match(...) || []`. */
  function Tokenize(commandString: string): (parts: seq<string>)
    ensures forall k :: 0 <= k < |parts| ==> parts[k] != []
  {
    TokensFrom(Trim(commandString), 0)
  }

  /** A match that takes something is a run of pieces. */
  lemma TokenIsShaped(s: string, i: nat)
    requires i <= |s| && i < TokenEnd(s, i)
    ensures TokenShape(s[i..TokenEnd(s, i)])
  {
    var pieces := TokenPieces(s, i);
  }

  lemma {:induction false} TokenPieces(s: string, i: nat) returns (pieces: seq<string>)
    requires i <= |s| && i < TokenEnd(s, i)
    ensures pieces != [] && (forall k :: 0 <= k < |pieces| ==> IsPiece(pieces[k]))
    ensures Concat(pieces) == s[i..TokenEnd(s, i)]
    decreases |s| - i
  {
    var e := TokenEnd(s, i);
    var next, first;
    if s[i] != '"' {
      first, next := [s[i]], i + 1;
      assert IsWord(first);
    } else {
      var j := ClosingQuote(s, i + 1).value;
      first, next := s[i..j + 1], j + 1;
      assert |first| == j + 1 - i && i < j;
      assert forall k :: 1 <= k < |first| - 1 ==> first[k] == s[i + k];
      var middle := first[1..|first| - 1];
      assert '"' !in middle by {
        forall k | 0 <= k < |middle|
          ensures middle[k] != '"'
        {
          assert middle[k] == s[i + 1 + k];
        }
      }
      assert IsQuotedSpan(first);
    }
    assert TokenEnd(s, next) == e;
    assert s[i..e] == first + s[next..e];
    if next < e {
      var rest := TokenPieces(s, next);
      pieces := [first] + rest;
      assert pieces[1..] == rest;
    } else {
      pieces := [first];
      assert Concat(pieces) == first + Concat([]);
    }
  }

  /** Every token is a run of pieces. */
  lemma {:induction false} TokensShaped(s: string, i: nat)
    requires i <= |s|
    ensures forall k :: 0 <= k < |TokensFrom(s, i)| ==> TokenShape(TokensFrom(s, i)[k])
    decreases |s| - i
  {
    if i < |s| {
      var e := TokenEnd(s, i);
      if e == i {
        TokensShaped(s, i + 1);
      } else {
        TokenIsShaped(s, i);
        TokensShaped(s, e);
      }
    }
  }

  /** Every token of a command is one match of the regular expression: a run of pieces. */
  lemma TokenizeShaped(commandString: string)
    ensures forall k :: 0 <= k < |Tokenize(commandString)| ==> TokenShape(Tokenize(commandString)[k])
  {
    TokensShaped(Trim(commandString), 0);
  }

  /** The match at `p` is empty exactly when the character at `p` is passed over. */
  lemma EmptyMatchIsSkipped(s: string, p: nat)
    requires p < |s|
    ensures TokenEnd(s, p) == p <==> Skipped(s, p)
  {
    if s[p] == '"' {
      match ClosingQuote(s, p + 1)
      case None =>
        assert '"' !in s[p + 1..];
      case Some(j) =>
        assert s[p + 1..][j - p - 1] == '"';
    }
  }

  /** A match stops at the end, at white space or at a `"` with no partner: it cannot be extended. */
  lemma {:induction false} TokenEndStops(s: string, i: nat)
    requires i <= |s|
    ensures TokenEnd(s, i) == |s| || Skipped(s, TokenEnd(s, i))
    decreases |s| - i
  {
    if i < |s| && !IsSpace(s[i]) {
      if s[i] != '"' {
        TokenEndStops(s, i + 1);
      } else {
        match ClosingQuote(s, i + 1)
        case None =>
          EmptyMatchIsSkipped(s, i);
        case Some(j) =>
          TokenEndStops(s, j + 1);
      }
    }
  }

  /**
   * The tokens from `i` on, one step at a time: the first one starts after
   * characters that are all passed over, is a run of pieces, and ends where
   * the match cannot go on; the others follow from its end. With no token,
   * every character from `i` on is passed over.
   */
  lemma {:induction false} TokensFromLayout(s: string, i: nat) returns (j: nat, e: nat)
    requires i <= |s|
    ensures TokensFrom(s, i) == [] ==> forall p :: i <= p < |s| ==> Skipped(s, p)
    ensures TokensFrom(s, i) != [] ==>
      && i <= j < e <= |s|
      && (forall p :: i <= p < j ==> Skipped(s, p))
      && !Skipped(s, j)
      && TokenShape(s[j..e])
      && (e == |s| || Skipped(s, e))
      && TokensFrom(s, i) == [s[j..e]] + TokensFrom(s, e)
    decreases |s| - i
  {
    if i == |s| {
      j, e := i, i;
    } else {
      var t := TokenEnd(s, i);
      EmptyMatchIsSkipped(s, i);
      if t == i {
        j, e := TokensFromLayout(s, i + 1);
      } else {
        j, e := i, t;
        TokenIsShaped(s, i);
        TokenEndStops(s, i);
      }
    }
  }

  /** The tokens of a command occur in order in its trimmed text, with only passed-over characters before and between them. */
  lemma TokenizeLayout(commandString: string) returns (j: nat, e: nat)
    ensures var s := Trim(commandString);
      Tokenize(commandString) != [] ==>
        && j < e <= |s|
        && (forall p :: 0 <= p < j ==> Skipped(s, p))
        && TokenShape(s[j..e])
        && (e == |s| || Skipped(s, e))
        && Tokenize(commandString) == [s[j..e]] + TokensFrom(s, e)
  {
    j, e := TokensFromLayout(Trim(commandString), 0);
  }

  // ---------------------------------------------------------------------
  // Arguments

  /** `s.replace(/"/g, '')`. */
  function RemoveQuotes(s: string): (r: string)
    ensures '"' !in r
    ensures forall c :: c != '"' ==> multiset(r)[c] == multiset(s)[c]
  {
    if s == [] then []
    else
      assert s == [s[0]] + s[1..];
      (if s[0] == '"' then [] else [s[0]]) + RemoveQuotes(s[1..])
  }

  /**
   * `s.replace(/^"|"$/g, '')`: one `"` at the start and one at the end are
   * removed; a lone `"` is removed once, as the start.
   */
  function StripOuterQuotes(s: string): (r: string)
    ensures var lead := if s != [] && s[0] == '"' then 1 else 0;
      && lead + |r| <= |s|
      && r == s[lead..lead + |r|]
      && lead + |r| == |s| - (if |s| > lead && s[|s| - 1] == '"' then 1 else 0)
  {
    var rest := if s != [] && s[0] == '"' then s[1..] else s;
    if rest != [] && rest[|rest| - 1] == '"' then rest[..|rest| - 1] else rest
  }

  // ---------------------------------------------------------------------
  // toLowerCase() for keyword matching

  /**
   * The lower case of one character as far as it can matter for matching
   * the ASCII keywords: `A`-`Z`, and U+212A KELVIN SIGN, the one character
   * outside ASCII whose lower case is an ASCII letter (`k`).
   */
  function LowerChar(c: char): char {
    if 'A' <= c <= 'Z' then (c as int + 32) as char
    else if c == '\U{212A}' then 'k'
    else c
  }

  function ToLower(s: string): (r: string)
    ensures |r| == |s|
    ensures forall k :: 0 <= k < |s| ==> r[k] == LowerChar(s[k])
  {
    if s == [] then [] else [LowerChar(s[0])] + ToLower(s[1..])
  }

  // ---------------------------------------------------------------------
  // Properties

  /** A plain word: non-empty, with neither white space nor `"`. */
  predicate IsWord(w: string) {
    w != [] && forall k :: 0 <= k < |w| ==> !IsSpace(w[k]) && w[k] != '"'
  }

  predicate AllWords(ws: seq<string>) {
    forall k :: 0 <= k < |ws| ==> IsWord(ws[k])
  }

  /** A match run over plain characters stops exactly at the next white space or at the end. */
  lemma {:induction false} TokenEndPlain(s: string, i: nat, e: nat)
    requires i <= e <= |s|
    requires forall k :: i <= k < e ==> !IsSpace(s[k]) && s[k] != '"'
    requires e == |s| || IsSpace(s[e])
    ensures TokenEnd(s, i) == e
    decreases e - i
  {
    if i < e {
      TokenEndPlain(s, i + 1, e);
    }
  }

  lemma {:induction false} JoinEnds(ws: seq<string>, sep: string)
    requires ws != [] && AllWords(ws)
    ensures Join(ws, sep) != []
    ensures Join(ws, sep)[0] == ws[0][0]
    ensures Join(ws, sep)[|Join(ws, sep)| - 1] == ws[|ws| - 1][|ws[|ws| - 1]| - 1]
    decreases |ws|
  {
    if |ws| > 1 {
      JoinEnds(ws[1..], sep);
      assert Join(ws, sep) == ws[0] + sep + Join(ws[1..], sep);
      assert ws[1..][|ws[1..]| - 1] == ws[|ws| - 1];
    } else {
      assert Join(ws, sep) == ws[0];
    }
  }

  lemma TrimKeeps(s: string)
    requires s == [] || (!IsSpace(s[0]) && !IsSpace(s[|s| - 1]))
    ensures Trim(s) == s
  {
  }

  /** Words separated by single spaces come back one token each. */
  lemma {:induction false} TokensFromWords(s: string, i: nat, ws: seq<string>)
    requires i <= |s| && s[i..] == Join(ws, " ") && AllWords(ws)
    ensures TokensFrom(s, i) == ws
    decreases |ws|
  {
    if ws == [] {
      assert |s[i..]| == 0;
    } else {
      var w := ws[0];
      var e := i + |w|;
      if |ws| == 1 {
        assert s[i..] == w;
        assert forall k :: i <= k < |s| ==> s[k] == w[k - i];
        TokenEndPlain(s, i, |s|);
        assert s[i..|s|] == w;
        assert TokensFrom(s, i) == [s[i..|s|]] + TokensFrom(s, |s|);
      } else {
        assert s[i..] == w + " " + Join(ws[1..], " ");
        assert s[i..][|w|] == ' ';
        assert forall k :: i <= k < e ==> s[k] == w[k - i];
        TokenEndPlain(s, i, e);
        assert s[i..e] == w;
        assert TokenEnd(s, e) == e;
        assert s[e + 1..] == Join(ws[1..], " ") by {
          assert s[e + 1..] == s[i..][|w| + 1..];
        }
        TokensFromWords(s, e + 1, ws[1..]);
        assert ws == [w] + ws[1..];
      }
    }
  }

  /** Tokenizing plain words joined by single spaces gives back the words. */
  lemma TokenizeWords(ws: seq<string>)
    requires AllWords(ws)
    ensures Tokenize(Join(ws, " ")) == ws
  {
    var s := Join(ws, " ");
    if ws != [] {
      JoinEnds(ws, " ");
    }
    TrimKeeps(s);
    assert s[0..] == s;
    TokensFromWords(s, 0, ws);
  }

  /** A `"…"` span is one token, quotes included, even when it holds spaces. */
  lemma QuotedSpanIsOneToken(x: string)
    requires '"' !in x
    ensures Tokenize("\"" + x + "\"") == ["\"" + x + "\""]
  {
    var q := "\"" + x + "\"";
    forall k | 1 <= k < |q| - 1
      ensures q[k] != '"'
    {
      assert q[k] == x[k - 1];
    }
    QuotedToken(q);
  }

  /** A string that opens and closes with its only two `"` is one token. */
  lemma QuotedToken(q: string)
    requires |q| >= 2 && q[0] == '"' && q[|q| - 1] == '"'
    requires forall k :: 1 <= k < |q| - 1 ==> q[k] != '"'
    ensures Tokenize(q) == [q]
  {
    TrimKeeps(q);
    ClosingQuoteFinds(q, 1, |q| - 1);
    assert TokenEnd(q, |q|) == |q|;
    assert TokenEnd(q, 0) == |q|;
    assert q[0..|q|] == q;
    assert TokensFrom(q, 0) == [q[0..|q|]] + TokensFrom(q, |q|);
  }

  lemma {:induction false} ClosingQuoteFinds(s: string, i: nat, j: nat)
    requires i <= j < |s| && s[j] == '"'
    requires forall k :: i <= k < j ==> s[k] != '"'
    ensures ClosingQuote(s, i) == Some(j)
    decreases j - i
  {
    if i < j {
      ClosingQuoteFinds(s, i + 1, j);
    }
  }

  lemma {:induction false} NoClosingQuote(s: string, i: nat)
    requires i <= |s|
    requires forall k :: i <= k < |s| ==> s[k] != '"'
    ensures ClosingQuote(s, i) == None
    decreases |s| - i
  {
    if i < |s| {
      NoClosingQuote(s, i + 1);
    }
  }

  /** A `"` without a partner matches nothing: it is skipped, and the word after it is still a token. */
  lemma UnpairedQuoteSkipped(w: string)
    requires IsWord(w)
    ensures Tokenize("\"" + w) == [w]
  {
    var s := "\"" + w;
    assert s[0] == '"' && s[|s| - 1] == w[|w| - 1];
    TrimKeeps(s);
    assert forall k :: 1 <= k < |s| ==> s[k] == w[k - 1];
    NoClosingQuote(s, 1);
    assert TokenEnd(s, 0) == 0;
    assert TokensFrom(s, 0) == TokensFrom(s, 1);
    assert s[1..] == Join([w], " ");
    TokensFromWords(s, 1, [w]);
  }

  /** A run of plain characters reaches as far as the match that starts after it. */
  lemma {:induction false} TokenEndRun(s: string, i: nat, e: nat)
    requires i <= e <= |s|
    requires forall k :: i <= k < e ==> !IsSpace(s[k]) && s[k] != '"'
    ensures TokenEnd(s, i) == TokenEnd(s, e)
    decreases e - i
  {
    if i < e {
      TokenEndRun(s, i + 1, e);
    }
  }

  /** The match passes over a `"` with no partner. */
  lemma SkipQuote(s: string, m: nat)
    requires m < |s| && s[m] == '"' && '"' !in s[m + 1..]
    ensures TokensFrom(s, m) == TokensFrom(s, m + 1)
  {
    EmptyMatchIsSkipped(s, m);
  }

  /** A `"` without a partner between two words splits them into two tokens. */
  lemma UnpairedQuoteSplits(a: string, b: string)
    requires IsWord(a) && IsWord(b)
    ensures Tokenize(a + "\"" + b) == [a, b]
  {
    var s := a + "\"" + b;
    assert Trim(s) == s by {
      assert s[0] == a[0] && s[|s| - 1] == b[|b| - 1];
      TrimKeeps(s);
    }
    SplitAtQuote(a, b);
  }

  lemma SplitAtQuote(a: string, b: string)
    requires IsWord(a) && IsWord(b)
    ensures TokensFrom(a + "\"" + b, 0) == [a, b]
  {
    var s := a + "\"" + b;
    var m := |a|;
    assert TokenEnd(s, 0) == m by {
      assert forall k :: 0 <= k < m ==> s[k] == a[k];
      TokenEndRun(s, 0, m);
      assert s[m + 1..] == b;
      NoClosingQuote(s, m + 1);
    }
    assert TokensFrom(s, m + 1) == [b] by {
      assert s[m + 1..] == Join([b], " ");
      TokensFromWords(s, m + 1, [b]);
    }
    assert s[0..m] == a;
    assert TokensFrom(s, 0) == [a] + TokensFrom(s, m);
    SkipQuote(s, m);
  }

  lemma {:induction false} ToLowerIdempotent(s: string)
    ensures ToLower(ToLower(s)) == ToLower(s)
  {
    var once := ToLower(s);
    forall k | 0 <= k < |s|
      ensures ToLower(once)[k] == once[k]
    {
      var c := s[k];
      assert LowerChar(LowerChar(c)) == LowerChar(c) by {
        if 'A' <= c <= 'Z' {
          assert 'a' <= LowerChar(c) <= 'z';
        }
      }
    }
  }

  /** Removing quotes from one character keeps it unless it is a `"`. */
  lemma RemoveQuotesChar(c: char)
    ensures RemoveQuotes([c]) == if c == '"' then [] else [c]
  {
  }

  /** Quote removal works piece by piece, so the other characters keep their order. */
  lemma {:induction false} RemoveQuotesAppend(a: string, b: string)
    ensures RemoveQuotes(a + b) == RemoveQuotes(a) + RemoveQuotes(b)
  {
    if a == [] {
      assert a + b == b;
    } else {
      assert (a + b)[0] == a[0];
      assert (a + b)[1..] == a[1..] + b;
      RemoveQuotesAppend(a[1..], b);
    }
  }

  /** Path arguments never contain `"`, and one without quotes is taken as it is. */
  lemma {:induction false} RemoveQuotesKeepsPlain(s: string)
    requires '"' !in s
    ensures RemoveQuotes(s) == s
  {
    if s != [] {
      assert s == [s[0]] + s[1..];
      RemoveQuotesKeepsPlain(s[1..]);
    }
  }

  /** A string with no upper-case letter is its own lower case. */
  lemma ToLowerKeeps(s: string)
    requires forall k :: 0 <= k < |s| ==> LowerChar(s[k]) == s[k]
    ensures ToLower(s) == s
  {
  }

  /** A keyword of lower-case ASCII letters is a plain word and its own lower case. */
  lemma LowerCaseWord(w: string)
    requires w != [] && forall k :: 0 <= k < |w| ==> 'a' <= w[k] <= 'z'
    ensures IsWord(w) && ToLower(w) == w
  {
    ToLowerKeeps(w);
  }

  /** A string of white space only has no tokens. */
  lemma BlankHasNoTokens(s: string)
    requires forall k :: 0 <= k < |s| ==> IsSpace(s[k])
    ensures Tokenize(s) == []
  {
  }
}
