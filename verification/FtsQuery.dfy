// sanitizeFTS5Query of internal/server/store/sqlite.go: user text turned into a list of quoted strings
// that full-text search reads as an AND of plain phrases.
module FtsQuery {
  import opened Collections
  import opened Text

  // ---- Specification ----

  // Length of the leading run without white space.
  function WordLength(s: string): (n: nat)
    ensures n <= |s|
    ensures forall i :: 0 <= i < n ==> !IsSpace(s[i])
    ensures n == |s| || IsSpace(s[n])
  {
    if s == "" || IsSpace(s[0]) then 0 else 1 + WordLength(s[1..])
  }

  // strings.Fields
  function Fields(s: string): seq<string>
    decreases |s|
  {
    if s == "" then []
    else if IsSpace(s[0]) then Fields(s[1..])
    else
      var n := WordLength(s);
      [s[..n]] + Fields(s[n..])
  }

  // strings.ReplaceAll(w, `"`, `""`)
  function Escape(w: string): string {
    if w == "" then "" else (if w[0] == '"' then "\"\"" else [w[0]]) + Escape(w[1..])
  }

  function Quote(w: string): string { "\"" + Escape(w) + "\"" }

  function QuoteAll(words: seq<string>): (quoted: seq<string>)
    ensures |quoted| == |words|
    ensures forall i :: 0 <= i < |words| ==> quoted[i] == Quote(words[i])
  {
    seq(|words|, i requires 0 <= i < |words| => Quote(words[i]))
  }

  // strings.Join(words, " ")
  function JoinSpace(words: seq<string>): string {
    if words == [] then ""
    else if |words| == 1 then words[0]
    else words[0] + " " + JoinSpace(words[1..])
  }

  function Sanitize(query: string): string { JoinSpace(QuoteAll(Fields(query))) }

  // The in-place loop over the words.
  method SanitizeFTS5Query(query: string) returns (result: string)
    ensures result == Sanitize(query)
  {
    hide Fields, Quote, JoinSpace;
    ghost var fields := Fields(query);
    var parts := Fields(query);
    var words := new string[|parts|](i requires 0 <= i < |parts| => parts[i]);
    for i := 0 to words.Length
      invariant forall k :: 0 <= k < i ==> words[k] == Quote(fields[k])
      invariant forall k :: i <= k < words.Length ==> words[k] == fields[k]
    {
      words[i] := Quote(words[i]);
    }
    assert words[..] == QuoteAll(fields);
    result := JoinSpace(words[..]);
  }

  // ---- How FTS5 reads the result ----

  // White space between the phrases of a query.
  predicate IsGap(c: char) { c in {' ', '\t', '\n', '\r'} }

  // The inside of a string up to its closing quote, with "" standing for one quote, and what follows.
  function ReadString(s: string): Option<(string, string)> {
    if s == "" then None
    else if s[0] != '"' then
      match ReadString(s[1..])
      case None => None
      case Some((text, rest)) => Some(([s[0]] + text, rest))
    else if |s| > 1 && s[1] == '"' then
      match ReadString(s[2..])
      case None => None
      case Some((text, rest)) => Some((['"'] + text, rest))
    else Some(("", s[1..]))
  }

  lemma {:induction false} ReadStringShorter(s: string)
    ensures ReadString(s).Some? ==> |ReadString(s).value.1| < |s|
  {
    if s != "" {
      if s[0] != '"' {
        ReadStringShorter(s[1..]);
      } else if |s| > 1 && s[1] == '"' {
        ReadStringShorter(s[2..]);
      }
    }
  }

  // A sequence of strings separated by white space; None for anything else (operators, barewords,
  // column filters, an unterminated string).
  function ParsePhrases(s: string): Option<seq<string>>
    decreases |s|
  {
    if s == "" then Some([])
    else if IsGap(s[0]) then ParsePhrases(s[1..])
    else if s[0] != '"' then None
    else
      ReadStringShorter(s[1..]);
      match ReadString(s[1..])
      case None => None
      case Some((text, rest)) =>
        match ParsePhrases(rest)
        case None => None
        case Some(phrases) => Some([text] + phrases)
  }

  // ---- Reading back ----

  lemma {:induction false} ReadEscaped(w: string, rest: string)
    requires rest == "" || rest[0] != '"'
    ensures ReadString(Escape(w) + "\"" + rest) == Some((w, rest))
  {
    var s := Escape(w) + "\"" + rest;
    if w == "" {
      assert s == "\"" + rest && s[1..] == rest;
    } else {
      var tail := Escape(w[1..]) + "\"" + rest;
      ReadEscaped(w[1..], rest);
      assert [w[0]] + w[1..] == w;
      if w[0] == '"' {
        assert s == "\"\"" + tail && s[2..] == tail;
      } else {
        assert s == [w[0]] + tail && s[1..] == tail;
      }
    }
  }

  // One quoted word in front of what parses already.
  lemma {:induction false} ParseOne(w: string, after: string, phrases: seq<string>)
    requires after == "" || after[0] != '"'
    requires ParsePhrases(after) == Some(phrases)
    ensures ParsePhrases(Quote(w) + after) == Some([w] + phrases)
  {
    var s := Quote(w) + after;
    assert s[0] == '"' && s[1..] == Escape(w) + "\"" + after;
    ReadEscaped(w, after);
    hide ReadString, Escape;
  }

  lemma {:induction false} ParseQuoted(words: seq<string>)
    ensures ParsePhrases(JoinSpace(QuoteAll(words))) == Some(words)
  {
    if words != [] {
      var w, rest := words[0], words[1..];
      ParseQuoted(rest);
      var after := if rest == [] then "" else " " + JoinSpace(QuoteAll(rest));
      if rest != [] {
        assert after[1..] == JoinSpace(QuoteAll(rest));
      }
      JoinQuoted(words);
      ParseOne(w, after, rest);
      assert words == [w] + rest;
      hide *;
    }
  }

  lemma {:induction false} JoinQuoted(words: seq<string>)
    requires words != []
    ensures JoinSpace(QuoteAll(words))
            == Quote(words[0]) + if |words| == 1 then "" else " " + JoinSpace(QuoteAll(words[1..]))
  {
    hide Quote;
    assert QuoteAll(words)[1..] == QuoteAll(words[1..]);
    assert |words| == 1 ==> Quote(words[0]) + "" == Quote(words[0]);
    ConcatAssoc(Quote(words[0]), " ", JoinSpace(QuoteAll(words[1..])));
  }

  // Whatever the user typed, full-text search reads exactly its words, as plain phrases.
  lemma {:induction false} QuotingRoundTrip(query: string)
    ensures ParsePhrases(Sanitize(query)) == Some(Fields(query))
  {
    ParseQuoted(Fields(query));
  }

  // Two queries are the same search if and only if they have the same words.
  lemma {:induction false} SameQuery(a: string, b: string)
    ensures Sanitize(a) == Sanitize(b) <==> Fields(a) == Fields(b)
  {
    QuotingRoundTrip(a);
    QuotingRoundTrip(b);
  }

  lemma {:induction false} NoFields(s: string)
    ensures Fields(s) == [] <==> AllIn(s, Whitespace)
    decreases |s|
  {
    if s != "" && IsSpace(s[0]) {
      NoFields(s[1..]);
      assert s == [s[0]] + s[1..];
    }
  }

  // The search is skipped exactly for blank input.
  lemma {:induction false} EmptyIffBlank(query: string)
    ensures Sanitize(query) == "" <==> AllIn(query, Whitespace)
  {
    NoFields(query);
    QuotingRoundTrip(query);
    assert ParsePhrases("") == Some([]);
  }

  // ---- Fields ----

  predicate IsWord(w: string) { w != "" && forall i :: 0 <= i < |w| ==> !IsSpace(w[i]) }

  lemma {:induction false} FieldsAreWords(s: string)
    ensures forall i :: 0 <= i < |Fields(s)| ==> IsWord(Fields(s)[i])
    decreases |s|
  {
    if s != "" {
      if IsSpace(s[0]) {
        FieldsAreWords(s[1..]);
      } else {
        FieldsAreWords(s[WordLength(s)..]);
      }
    }
  }

  lemma {:induction false} FieldsOfWord(w: string, rest: string)
    requires IsWord(w) && (rest == "" || IsSpace(rest[0]))
    ensures Fields(w + rest) == [w] + Fields(rest)
  {
    var s := w + rest;
    var n := WordLength(s);
    assert forall i :: 0 <= i < |w| ==> s[i] == w[i];
    assert rest != "" ==> s[|w|] == rest[0];
    assert n == |w|;
    assert s[..n] == w && s[n..] == rest;
  }

  // White space in front makes no difference. Together with FieldsOfWord this determines the fields.
  lemma {:induction false} FieldsSkipSpace(c: char, s: string)
    requires IsSpace(c)
    ensures Fields([c] + s) == Fields(s)
  {
    assert ([c] + s)[1..] == s;
  }

  // Words joined by single spaces are exactly their fields; so no two word lists collide.
  lemma {:induction false} FieldsOfJoin(words: seq<string>)
    requires forall i :: 0 <= i < |words| ==> IsWord(words[i])
    ensures Fields(JoinSpace(words)) == words
  {
    if words != [] {
      var w, rest := words[0], words[1..];
      FieldsOfJoin(rest);
      var after := if rest == [] then "" else " " + JoinSpace(rest);
      assert JoinSpace(words) == w + after;
      FieldsOfWord(w, after);
      if rest != [] {
        assert after[1..] == JoinSpace(rest);
      }
      assert words == [w] + rest;
    }
  }
}
