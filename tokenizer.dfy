/** The argument splitter at the top of handleCommand (src/lib/commands.ts and
    commands.js): the global match of `(?:[^\s"]+|"[^"]*")+` followed by the
    removal of one pair of outer quotes. */
module Tokenizer {
  import opened Paths

  /** The characters of the `\s` class of JavaScript regular expressions:
      the ECMAScript WhiteSpace and LineTerminator code points. */
  predicate IsSpace(c: char) {
    var n := c as int;
    (0x09 <= n <= 0x0d) || n == 0x20 || n == 0xa0 || n == 0x1680 ||
    (0x2000 <= n <= 0x200a) || n == 0x2028 || n == 0x2029 || n == 0x202f ||
    n == 0x205f || n == 0x3000 || n == 0xfeff
  }

  /** A character of `[^\s"]`. */
  predicate IsPlain(c: char) {
    !IsSpace(c) && c != '"'
  }

  /** Where the first `c` of `s` is, if any. */
  function IndexOf(s: string, c: char): (r: int)
    ensures -1 <= r < |s|
    ensures r == -1 <==> c !in s
    ensures r >= 0 ==> s[r] == c && c !in s[..r]
  {
    if s == [] then -1
    else if s[0] == c then 0
    else
      var r := IndexOf(s[1..], c);
      if r == -1 then -1
      else
        assert s[..r + 1] == [s[0]] + s[1..][..r];
        r + 1
  }

  /** The length of the match of `(?:[^\s"]+|"[^"]*")+` at the start of `s`,
      0 when there is none: a run of plain characters and quoted groups,
      ended by a space, the end, or a quote that is never closed. */
  function TokenLen(s: string): (n: nat)
    ensures n <= |s|
    decreases |s|
  {
    if s == [] then 0
    else if IsPlain(s[0]) then 1 + TokenLen(s[1..])
    else if s[0] == '"' && '"' in s[1..] then
      var q := IndexOf(s[1..], '"') + 2;
      q + TokenLen(s[q..])
    else 0
  }

  /** The raw matches of the global regular expression, left to right; a
      position where nothing matches is skipped. */
  function Tokens(s: string): seq<string>
    decreases |s|
  {
    if s == [] then []
    else
      var n := TokenLen(s);
      if n == 0 then Tokens(s[1..]) else [s[..n]] + Tokens(s[n..])
  }

  predicate EndsWith(s: string, c: char) {
    |s| > 0 && s[|s| - 1] == c
  }

  /** `arg.startsWith('"') && arg.endsWith('"') ? arg.slice(1, -1) : arg`. */
  function Unquote(t: string): (r: string)
    ensures StartsWith(t, '"') && EndsWith(t, '"') ==> |r| == |t| - 2 || t == "\""
    ensures !(StartsWith(t, '"') && EndsWith(t, '"')) ==> r == t
  {
    if StartsWith(t, '"') && EndsWith(t, '"') then
      if |t| >= 2 then t[1..|t| - 1] else ""
    else t
  }

  function UnquoteAll(ts: seq<string>): (r: seq<string>)
    ensures |r| == |ts|
    ensures forall i :: 0 <= i < |ts| ==> r[i] == Unquote(ts[i])
  {
    if ts == [] then [] else [Unquote(ts[0])] + UnquoteAll(ts[1..])
  }

  /** The argument vector of a command line; no match at all gives `[]`. */
  function Args(command: string): seq<string> {
    UnquoteAll(Tokens(command))
  }

  /** How many `"` a string holds. */
  function Quotes(s: string): nat {
    if s == [] then 0 else (if s[0] == '"' then 1 else 0) + Quotes(s[1..])
  }

  /** A line without any match: no plain character, and at most one quote
      (a lone quote is never closed). */
  predicate Blank(s: string) {
    (forall i :: 0 <= i < |s| ==> !IsPlain(s[i])) && Quotes(s) <= 1
  }

  // ---------------------------------------------------------------------
  // Properties

  lemma {:induction false} QuotesNone(s: string)
    ensures Quotes(s) == 0 <==> '"' !in s
  {
    if s != [] {
      QuotesNone(s[1..]);
      assert s == [s[0]] + s[1..];
    }
  }

  /** A line yields no argument exactly when it is blank, so handleCommand
      returns at once on an empty or whitespace-only line. */
  lemma {:induction false} NoTokens(s: string)
    ensures Tokens(s) == [] <==> Blank(s)
    decreases |s|
  {
    if s != [] {
      NoTokens(s[1..]);
      QuotesNone(s[1..]);
      assert forall i :: 1 <= i < |s| ==> s[i] == s[1..][i - 1];
      if TokenLen(s) == 0 {
        assert !IsPlain(s[0]);
        if Blank(s[1..]) {
          assert Blank(s);
        }
        if Blank(s) {
          assert forall i :: 0 <= i < |s[1..]| ==> !IsPlain(s[1..][i]) by {
            forall i | 0 <= i < |s[1..]| ensures !IsPlain(s[1..][i]) {
              assert s[1..][i] == s[i + 1];
            }
          }
        }
      } else {
        assert Tokens(s) != [];
        if IsPlain(s[0]) {
          assert !Blank(s);
        } else {
          assert s[0] == '"' && '"' in s[1..];
          assert Quotes(s) >= 2;
        }
      }
    }
  }

  /** A whitespace-only line gives no argument. */
  lemma SpacesGiveNothing(s: string)
    requires forall i :: 0 <= i < |s| ==> IsSpace(s[i])
    ensures Args(s) == []
  {
    assert Quotes(s) == 0 by {
      QuotesNone(s);
    }
    NoTokens(s);
  }

  /** A word of plain characters is matched whole. */
  lemma {:induction false} TokenLenWord(w: string, rest: string)
    requires forall i :: 0 <= i < |w| ==> IsPlain(w[i])
    requires rest == [] || IsSpace(rest[0])
    ensures TokenLen(w + rest) == |w|
    decreases |w|
  {
    if w == [] {
      assert w + rest == rest;
    } else {
      assert (w + rest)[0] == w[0] && (w + rest)[1..] == w[1..] + rest;
      TokenLenWord(w[1..], rest);
    }
  }

  /** A token of plain characters. */
  predicate IsWord(w: string) {
    w != [] && forall i :: 0 <= i < |w| ==> IsPlain(w[i])
  }

  /** Words joined by single spaces split back into the same words: the
      arguments handlers receive are those the line was built from. */
  lemma {:induction false} ArgsOfWords(words: seq<string>)
    requires forall i :: 0 <= i < |words| ==> IsWord(words[i])
    ensures Args(Join(words, " ")) == words
    decreases |words|
  {
    TokensOfWords(words);
    UnquoteWords(words);
  }

  lemma {:induction false} TokensOfWords(words: seq<string>)
    requires forall i :: 0 <= i < |words| ==> IsWord(words[i])
    ensures Tokens(Join(words, " ")) == words
    decreases |words|
  {
    if |words| == 1 {
      var w := words[0];
      TokenLenWord(w, "");
      assert w + "" == w;
      TokensWhole(w);
    } else if |words| > 1 {
      var w := words[0];
      var rest := Join(words[1..], " ");
      assert Join(words, " ") == w + [' '] + rest;
      TokenLenWord(w, [' '] + rest);
      assert w + [' '] + rest == w + ([' '] + rest);
      TokensStep(w, rest);
      TokensOfWords(words[1..]);
      assert words == [w] + words[1..];
    }
  }

  lemma {:induction false} UnquoteWords(words: seq<string>)
    requires forall i :: 0 <= i < |words| ==> IsWord(words[i])
    ensures UnquoteAll(words) == words
  {
    forall i | 0 <= i < |words| ensures Unquote(words[i]) == words[i] {
      assert !IsPlain('"');
    }
  }

  /** Every raw token is non-empty and holds an even number of quotes. */
  lemma {:induction false} TokenShape(s: string)
    ensures forall t :: t in Tokens(s) ==> t != [] && Quotes(t) % 2 == 0
    decreases |s|
  {
    if s != [] {
      var n := TokenLen(s);
      if n == 0 {
        TokenShape(s[1..]);
      } else {
        TokenShape(s[n..]);
        TokenEven(s);
      }
    }
  }

  lemma QuotesAppend(a: string, b: string)
    ensures Quotes(a + b) == Quotes(a) + Quotes(b)
    decreases |a|
  {
    if a == [] {
      assert a + b == b;
    } else {
      assert (a + b)[0] == a[0] && (a + b)[1..] == a[1..] + b;
      QuotesAppend(a[1..], b);
    }
  }

  lemma {:induction false} IndexOfAppend(a: string, c: char, r: string)
    requires c !in a
    ensures IndexOf(a + [c] + r, c) == |a|
  {
    if a != [] {
      IndexOfAppend(a[1..], c, r);
      assert (a + [c] + r)[1..] == a[1..] + [c] + r;
    }
  }

  /** A closed quoted group is matched whole and the match goes on after it. */
  lemma QuotedLen(body: string, rest: string)
    requires '"' !in body
    ensures TokenLen(['"'] + body + ['"'] + rest) == |body| + 2 + TokenLen(rest)
  {
    var s := ['"'] + body + ['"'] + rest;
    assert s[1..] == body + ['"'] + rest;
    IndexOfAppend(body, '"', rest);
    assert s[|body| + 2..] == rest;
  }

  /** The pieces of a token that starts with a closed quoted group. */
  lemma QuotedSplit(s: string) returns (body: string, rest: string)
    requires s != [] && s[0] == '"' && '"' in s[1..]
    ensures '"' !in body && s == ['"'] + body + ['"'] + rest
  {
    var j := IndexOf(s[1..], '"');
    body := s[1..][..j];
    rest := s[j + 2..];
    assert s == ['"'] + body + ['"'] + rest;
  }

  lemma {:induction false} TokenEven(s: string)
    ensures Quotes(s[..TokenLen(s)]) % 2 == 0
    decreases |s|
  {
    if s == [] {
    } else if IsPlain(s[0]) {
      TokenEven(s[1..]);
      PlainQuotes(s);
    } else if s[0] == '"' && '"' in s[1..] {
      var body, rest := QuotedSplit(s);
      TokenEven(rest);
      QuotedQuotes(s, body, rest);
    }
  }

  /** A token that starts with a plain character has the quotes of its tail. */
  lemma PlainQuotes(s: string)
    requires s != [] && IsPlain(s[0])
    ensures Quotes(s[..TokenLen(s)]) == Quotes(s[1..][..TokenLen(s[1..])])
  {
    var n := TokenLen(s);
    assert s[..n] == [s[0]] + s[1..][..n - 1];
  }

  /** A token that starts with a closed quoted group has two more quotes than
      the token after the group. */
  lemma QuotedQuotes(s: string, body: string, rest: string)
    requires '"' !in body && s == ['"'] + body + ['"'] + rest
    ensures Quotes(s[..TokenLen(s)]) == 2 + Quotes(rest[..TokenLen(rest)])
  {
    QuotedLen(body, rest);
    var m := TokenLen(rest);
    assert s[..TokenLen(s)] == ['"'] + body + ['"'] + rest[..m];
    QuotesAppend(['"'] + body + ['"'], rest[..m]);
    QuotesAppend(['"'] + body, ['"']);
    QuotesAppend(['"'], body);
    QuotesNone(body);
  }

  /** A token, then one space, then the rest of the line. */
  lemma TokensStep(w: string, rest: string)
    requires w != [] && TokenLen(w + [' '] + rest) == |w|
    ensures Tokens(w + [' '] + rest) == [w] + Tokens(rest)
  {
    var s := w + [' '] + rest;
    assert s[..|w|] == w;
    assert s[|w|..] == [' '] + rest;
    assert ([' '] + rest)[1..] == rest;
  }

  /** A line that is one token. */
  lemma TokensWhole(w: string)
    requires w != [] && TokenLen(w) == |w|
    ensures Tokens(w) == [w]
  {
    assert w[..|w|] == w && w[|w|..] == [];
  }

  /** A quoted argument keeps its spaces and loses its quotes:
      `cmd "body"` gives `[cmd, body]` whatever spaces body holds. */
  lemma QuotedArgument(cmd: string, body: string)
    requires IsWord(cmd) && '"' !in body
    ensures Args(cmd + " \"" + body + "\"") == [cmd, body]
  {
    var r := ['"'] + body + ['"'];
    assert cmd + " \"" + body + "\"" == cmd + [' '] + r;
    QuotedTokens(cmd, body);
    assert Unquote(cmd) == cmd by {
      assert !IsPlain('"');
    }
    assert Unquote(r) == body by {
      assert r[1..|r| - 1] == body;
    }
  }

  /** The matches of `cmd "body"`: the word, and the quoted group whole. */
  lemma QuotedTokens(cmd: string, body: string)
    requires IsWord(cmd) && '"' !in body
    ensures Tokens(cmd + [' '] + (['"'] + body + ['"'])) == [cmd, ['"'] + body + ['"']]
  {
    var r := ['"'] + body + ['"'];
    assert TokenLen(cmd + [' '] + r) == |cmd| by {
      TokenLenWord(cmd, [' '] + r);
      assert cmd + [' '] + r == cmd + ([' '] + r);
    }
    TokensStep(cmd, r);
    QuotedWhole(body);
  }

  /** A closed quoted group alone is one match. */
  lemma QuotedWhole(body: string)
    requires '"' !in body
    ensures Tokens(['"'] + body + ['"']) == [['"'] + body + ['"']]
  {
    var r := ['"'] + body + ['"'];
    QuotedLen(body, "");
    assert r + "" == r;
    TokensWhole(r);
  }

  /** Quotes inside a token are kept: `a"b"c` stays one argument, quotes
      included, since it does not start with a quote. */
  lemma InnerQuotes(a: string, b: string, c: string)
    requires IsWord(a) && IsWord(c) && '"' !in b
    ensures Args(a + ['"'] + b + ['"'] + c) == [a + ['"'] + b + ['"'] + c]
  {
    var t := a + ['"'] + b + ['"'] + c;
    TokenLenWord(c, "");
    assert c + "" == c;
    QuotedLen(b, c);
    assert TokenLen(['"'] + b + ['"'] + c) == |b| + 2 + |c|;
    TokenLenPrefix(a, ['"'] + b + ['"'] + c);
    assert a + (['"'] + b + ['"'] + c) == t;
    TokensWhole(t);
    assert t[0] == a[0] && !IsPlain('"');
  }

  /** Plain characters in front of a match extend it. */
  lemma {:induction false} TokenLenPrefix(w: string, rest: string)
    requires forall i :: 0 <= i < |w| ==> IsPlain(w[i])
    ensures TokenLen(w + rest) == |w| + TokenLen(rest)
    decreases |w|
  {
    if w == [] {
      assert w + rest == rest;
    } else {
      assert (w + rest)[0] == w[0] && (w + rest)[1..] == w[1..] + rest;
      TokenLenPrefix(w[1..], rest);
    }
  }

  /** An unmatched quote is dropped: `a "b` gives `[a, b]`. */
  lemma UnmatchedQuote(a: string, b: string)
    requires IsWord(a) && IsWord(b)
    ensures Args(a + " \"" + b) == [a, b]
  {
    var rest := ['"'] + b;
    assert a + " \"" + b == a + [' '] + rest;
    TokenLenWord(a, [' '] + rest);
    assert a + [' '] + rest == a + ([' '] + rest);
    TokensStep(a, rest);
    assert '"' !in b by {
      assert !IsPlain('"');
    }
    assert rest[1..] == b;
    assert TokenLen(rest) == 0;
    TokenLenWord(b, "");
    assert b + "" == b;
    TokensWhole(b);
    assert !IsPlain('"');
  }
}
