/** The identifier list of a search: the query text split with
    `String.Split(',', ' ')`, no options. Every comma and every space ends a
    token, so empty tokens are kept, nothing is trimmed or de-duplicated and
    the left-to-right order of the text is kept. */
module Tokenizer {

  /** The two separator characters passed to Split. */
  predicate IsDelimiter(c: char) {
    c == ',' || c == ' '
  }

  /** A token as Split can return it: no separator inside. */
  predicate NoDelimiter(t: string) {
    forall i :: 0 <= i < |t| ==> !IsDelimiter(t[i])
  }

  /** The separator characters of `s`, in the order they occur. */
  function DelimitersOf(s: string): (d: seq<char>)
    ensures |d| <= |s|
    ensures forall i :: 0 <= i < |d| ==> IsDelimiter(d[i])
  {
    if s == [] then []
    else if IsDelimiter(s[0]) then [s[0]] + DelimitersOf(s[1..])
    else DelimitersOf(s[1..])
  }

  /** `Split(',', ' ')`: one token more than there are separators, and no
      token holds a separator. */
  function Tokenize(s: string): (r: seq<string>)
    ensures |r| == |DelimitersOf(s)| + 1
    ensures forall i :: 0 <= i < |r| ==> NoDelimiter(r[i])
  {
    if s == [] then [[]]
    else
      var rest := Tokenize(s[1..]);
      if IsDelimiter(s[0]) then [[]] + rest
      else [[s[0]] + rest[0]] + rest[1..]
  }

  /** Puts tokens back together, with `seps[i]` between token i and token i+1. */
  function Rejoin(tokens: seq<string>, seps: seq<char>): (r: string)
    requires |tokens| == |seps| + 1
  {
    if seps == [] then tokens[0]
    else tokens[0] + [seps[0]] + Rejoin(tokens[1..], seps[1..])
  }

  lemma RejoinPrefix(w: string, tokens: seq<string>, seps: seq<char>)
    requires |tokens| == |seps| + 1
    ensures Rejoin([w + tokens[0]] + tokens[1..], seps) == w + Rejoin(tokens, seps)
  {
    var ts := [w + tokens[0]] + tokens[1..];
    assert ts[1..] == tokens[1..];
  }

  /** Splitting loses nothing: the tokens, joined again with the separators
      that were found, give back the text exactly. */
  lemma {:induction false} RejoinTokenize(s: string)
    ensures Rejoin(Tokenize(s), DelimitersOf(s)) == s
  {
    if s != [] {
      var rest := Tokenize(s[1..]);
      RejoinTokenize(s[1..]);
      if IsDelimiter(s[0]) {
        var ts := [[]] + rest;
        assert ts[1..] == rest;
      } else {
        RejoinPrefix([s[0]], rest, DelimitersOf(s[1..]));
        assert s == [s[0]] + s[1..];
      }
    }
  }

  /** A separator-free word in front of a text is glued to its first token. */
  lemma {:induction false} TokenizePrefix(w: string, s: string)
    requires NoDelimiter(w)
    ensures Tokenize(w + s) == [w + Tokenize(s)[0]] + Tokenize(s)[1..]
    ensures DelimitersOf(w + s) == DelimitersOf(s)
  {
    if w != [] {
      assert NoDelimiter(w[1..]) by {
        forall i | 0 <= i < |w[1..]| ensures !IsDelimiter(w[1..][i]) {
          assert w[1..][i] == w[i + 1];
        }
      }
      TokenizePrefix(w[1..], s);
      assert !IsDelimiter(w[0]);
      var ws := w + s;
      assert ws[0] == w[0] && ws[1..] == w[1..] + s;
      assert [w[0]] + (w[1..] + Tokenize(s)[0]) == w + Tokenize(s)[0];
    } else {
      var t := Tokenize(s);
      assert w + s == s && w + t[0] == t[0];
      assert [t[0]] + t[1..] == t;
    }
  }

  /** The converse of RejoinTokenize: any separator-free tokens joined with
      any separators are split back into exactly those tokens and
      separators. With RejoinTokenize this says Tokenize is the only split
      of a text into separator-free tokens. */
  lemma {:induction false} TokenizeRejoin(tokens: seq<string>, seps: seq<char>)
    requires |tokens| == |seps| + 1
    requires forall i :: 0 <= i < |tokens| ==> NoDelimiter(tokens[i])
    requires forall i :: 0 <= i < |seps| ==> IsDelimiter(seps[i])
    ensures Tokenize(Rejoin(tokens, seps)) == tokens
    ensures DelimitersOf(Rejoin(tokens, seps)) == seps
  {
    if seps == [] {
      TokenizePrefix(tokens[0], []);
      assert tokens[0] + [] == tokens[0];
      assert tokens == [tokens[0]];
    } else {
      var tail := Rejoin(tokens[1..], seps[1..]);
      assert forall i :: 0 <= i < |tokens[1..]| ==> NoDelimiter(tokens[1..][i]) by {
        forall i | 0 <= i < |tokens[1..]| ensures NoDelimiter(tokens[1..][i]) {
          assert tokens[1..][i] == tokens[i + 1];
        }
      }
      TokenizeRejoin(tokens[1..], seps[1..]);
      var after := [seps[0]] + tail;
      assert after[0] == seps[0] && after[1..] == tail;
      assert Tokenize(after) == [[]] + tokens[1..];
      assert DelimitersOf(after) == [seps[0]] + seps[1..];
      TokenizePrefix(tokens[0], after);
      assert Rejoin(tokens, seps) == tokens[0] + after;
      assert Tokenize(after)[0] == [] && Tokenize(after)[1..] == tokens[1..];
      assert tokens[0] + [] == tokens[0];
      assert tokens == [tokens[0]] + tokens[1..];
    }
  }

  /** A text without separators is a single identifier, itself. In
      particular the empty query is one empty identifier, not none. */
  lemma TokenizeSingle(s: string)
    requires NoDelimiter(s)
    ensures Tokenize(s) == [s]
  {
    TokenizePrefix(s, []);
    assert s + [] == s;
  }

  /** Re-splitting any token gives that token alone. */
  lemma TokenizeIdempotent(s: string, i: nat)
    requires i < |Tokenize(s)|
    ensures Tokenize(Tokenize(s)[i]) == [Tokenize(s)[i]]
  {
    TokenizeSingle(Tokenize(s)[i]);
  }
}
