/**
 * Splitting a query into terms: runs of ASCII whitespace separate the terms
 * and empty terms are dropped. Terms keep their original case; folding
 * happens when a term is compared with the text.
 */
module FzfPattern {

  /** ASCII whitespace: space, tab, line feed, vertical tab, form feed and carriage return. */
  predicate IsSpace(c: char)
  {
    c == ' ' || 9 <= c as int <= 13
  }

  predicate NoSpace(w: seq<char>)
  {
    forall k :: 0 <= k < |w| ==> !IsSpace(w[k])
  }

  /** A term is a non-empty run of characters none of which is whitespace. */
  predicate IsTerm(w: seq<char>)
  {
    |w| > 0 && NoSpace(w)
  }

  datatype Pattern = Pattern(terms: seq<seq<char>>)

  predicate WellFormed(p: Pattern)
  {
    forall k :: 0 <= k < |p.terms| ==> IsTerm(p.terms[k])
  }

  /** The longest prefix of s that holds no whitespace. */
  function LeadingWord(s: seq<char>): (w: seq<char>)
    ensures |w| <= |s| && w == s[..|w|] && NoSpace(w)
    ensures |w| < |s| ==> IsSpace(s[|w|])
  {
    if s == [] || IsSpace(s[0]) then [] else [s[0]] + LeadingWord(s[1..])
  }

  /** The terms of s, left to right. */
  function Words(s: seq<char>): (ws: seq<seq<char>>)
    ensures forall k :: 0 <= k < |ws| ==> IsTerm(ws[k])
    decreases |s|
  {
    if s == [] then []
    else if IsSpace(s[0]) then Words(s[1..])
    else
      var w := LeadingWord(s);
      [w] + Words(s[|w|..])
  }

  function ParsePattern(s: seq<char>): (p: Pattern)
    ensures WellFormed(p)
  {
    Pattern(Words(s))
  }

  // ------------------------------------------------------------ partners

  /** The terms joined by single spaces: the query a pattern is most simply typed as. */
  function Unwords(ws: seq<seq<char>>): seq<char>
    decreases |ws|
  {
    if ws == [] then []
    else if |ws| == 1 then ws[0]
    else ws[0] + [' '] + Unwords(ws[1..])
  }

  /** The non-whitespace characters of s, in order. */
  function NonSpace(s: seq<char>): (r: seq<char>)
    ensures NoSpace(r)
  {
    if s == [] then []
    else if IsSpace(s[0]) then NonSpace(s[1..])
    else [s[0]] + NonSpace(s[1..])
  }

  function Flatten(ws: seq<seq<char>>): seq<char>
  {
    if ws == [] then [] else ws[0] + Flatten(ws[1..])
  }

  /** A term followed by whitespace or the end of the query is read as one word. */
  lemma {:induction false} LeadingWordOfTerm(w: seq<char>, rest: seq<char>)
    requires NoSpace(w)
    requires rest == [] || IsSpace(rest[0])
    ensures LeadingWord(w + rest) == w
    decreases |w|
  {
    if w != [] {
      assert (w + rest)[1..] == w[1..] + rest;
      LeadingWordOfTerm(w[1..], rest);
    }
  }

  /** Parsing the terms joined by single spaces gives back the terms. */
  lemma {:induction false} ParseUnwords(ws: seq<seq<char>>)
    requires forall k :: 0 <= k < |ws| ==> IsTerm(ws[k])
    ensures Words(Unwords(ws)) == ws
    decreases |ws|
  {
    if |ws| == 1 {
      var w := ws[0];
      LeadingWordOfTerm(w, []);
      assert w + [] == w;
      assert w[|w|..] == [];
    } else if |ws| > 1 {
      var w, rest := ws[0], Unwords(ws[1..]);
      var s := w + [' '] + rest;
      assert s == w + ([' '] + rest);
      LeadingWordOfTerm(w, [' '] + rest);
      assert s[|w|..] == [' '] + rest;
      assert ([' '] + rest)[1..] == rest;
      ParseUnwords(ws[1..]);
      assert Words(s) == [w] + ws[1..];
    }
  }

  /** Removing a leading word from s removes exactly its characters from NonSpace(s). */
  lemma {:induction false} NonSpaceAfterWord(s: seq<char>)
    ensures NonSpace(s) == LeadingWord(s) + NonSpace(s[|LeadingWord(s)|..])
    decreases |s|
  {
    if s != [] && !IsSpace(s[0]) {
      var s', w' := s[1..], LeadingWord(s[1..]);
      NonSpaceAfterWord(s');
      assert LeadingWord(s) == [s[0]] + w';
      assert s'[|w'|..] == s[|w'| + 1..];
      calc {
        NonSpace(s);
        [s[0]] + NonSpace(s');
        [s[0]] + (w' + NonSpace(s'[|w'|..]));
        ([s[0]] + w') + NonSpace(s[|w'| + 1..]);
      }
    }
  }

  /** The terms hold exactly the non-whitespace characters of the query, in order. */
  lemma {:induction false} WordsKeepContent(s: seq<char>)
    ensures Flatten(Words(s)) == NonSpace(s)
    decreases |s|
  {
    if s != [] {
      if IsSpace(s[0]) {
        WordsKeepContent(s[1..]);
      } else {
        var w := LeadingWord(s);
        WordsKeepContent(s[|w|..]);
        NonSpaceAfterWord(s);
        assert ([w] + Words(s[|w|..]))[1..] == Words(s[|w|..]);
      }
    }
  }

  // ---------------------------------------------------------- upper case

  /** ASCII upper-casing, the transformation the case-insensitivity promise is stated for. */
  function UpcaseChar(c: char): (r: char)
    ensures IsSpace(r) <==> IsSpace(c)
  {
    if 'a' <= c <= 'z' then (c as int - 32) as char else c
  }

  function Upcase(s: seq<char>): (r: seq<char>)
    ensures |r| == |s|
    ensures forall k :: 0 <= k < |s| ==> r[k] == UpcaseChar(s[k])
  {
    if s == [] then [] else [UpcaseChar(s[0])] + Upcase(s[1..])
  }

  function UpcaseAll(ws: seq<seq<char>>): (r: seq<seq<char>>)
    ensures |r| == |ws|
    ensures forall k :: 0 <= k < |ws| ==> r[k] == Upcase(ws[k])
  {
    if ws == [] then [] else [Upcase(ws[0])] + UpcaseAll(ws[1..])
  }

  lemma {:induction false} LeadingWordUpcase(s: seq<char>)
    ensures LeadingWord(Upcase(s)) == Upcase(LeadingWord(s))
    decreases |s|
  {
    if s != [] && !IsSpace(s[0]) {
      assert Upcase(s)[1..] == Upcase(s[1..]);
      LeadingWordUpcase(s[1..]);
    }
  }

  /** Upper-casing the query upper-cases each term and changes nothing else. */
  lemma {:induction false} WordsUpcase(s: seq<char>)
    ensures Words(Upcase(s)) == UpcaseAll(Words(s))
    decreases |s|
  {
    if s != [] {
      var u := Upcase(s);
      assert u[1..] == Upcase(s[1..]);
      if IsSpace(s[0]) {
        WordsUpcase(s[1..]);
      } else {
        var w := LeadingWord(s);
        LeadingWordUpcase(s);
        assert u[|w|..] == Upcase(s[|w|..]);
        WordsUpcase(s[|w|..]);
      }
    }
  }
}
