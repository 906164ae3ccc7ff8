/** query::parse of src/dcl/query.cpp: every unquoted :name of an SQL statement becomes '?', and its
    name is recorded; an unquoted '?' records a parameter without a name. */
module Query {
  // isalnum of the "C" locale, or an underscore.
  predicate IsNameChar(c: char) {
    '0' <= c <= '9' || 'A' <= c <= 'Z' || 'a' <= c <= 'z' || c == '_'
  }

  // The length of the name that s begins with.
  function NameLength(s: string): (n: nat)
    ensures n <= |s|
    ensures forall i :: 0 <= i < n ==> IsNameChar(s[i])
    ensures n < |s| ==> !IsNameChar(s[n])
  {
    if s == "" || !IsNameChar(s[0]) then 0 else 1 + NameLength(s[1..])
  }

  // The two flags of the scanner: each quote character toggles its own flag, whatever the other is.
  datatype Quotes = Quotes(single: bool, double: bool) {
    predicate Open() {
      single || double
    }

    function After(c: char): Quotes {
      if c == '\'' then Quotes(!single, double)
      else if c == '"' then Quotes(single, !double)
      else this
    }
  }

  const OUTSIDE := Quotes(false, false)

  datatype Parsed = Parsed(text: string, names: seq<string>) {
    function After(t: string, n: seq<string>): Parsed {
      Parsed(t + text, n + names)
    }
  }

  predicate IsPlaceholder(s: string, f: Quotes) {
    s != "" && s[0] == ':' && !f.Open()
  }

  // What one step of the scanner consumes of s, writes and records.
  function Consumed(s: string, f: Quotes): (n: nat)
    requires s != ""
    ensures 1 <= n <= |s|
  {
    if IsPlaceholder(s, f) then 1 + NameLength(s[1..]) else 1
  }

  function Written(s: string, f: Quotes): string
    requires s != ""
  {
    if IsPlaceholder(s, f) then "?" else [s[0]]
  }

  function Recorded(s: string, f: Quotes): seq<string>
    requires s != ""
  {
    if IsPlaceholder(s, f) then [s[1..Consumed(s, f)]] else if s[0] == '?' && !f.Open() then [""] else []
  }

  // The rewritten statement and the recorded names, from a position with the given flags on.
  function Rewritten(s: string, f: Quotes): Parsed
    decreases |s|
  {
    if s == "" then Parsed("", [])
    else Rewritten(s[Consumed(s, f)..], f.After(s[0])).After(Written(s, f), Recorded(s, f))
  }

  // The number of unquoted question marks.
  function Marks(s: string, f: Quotes): nat {
    if s == "" then 0
    else (if s[0] == '?' && !f.Open() then 1 else 0) + Marks(s[1..], f.After(s[0]))
  }

  // Puts recorded names back for the unquoted question marks of a text.
  function Restored(s: string, names: seq<string>, f: Quotes): string {
    if s == "" then ""
    else if s[0] == '?' && !f.Open() && names != [] then
      (if names[0] == "" then "?" else ":" + names[0]) + Restored(s[1..], names[1..], f)
    else [s[0]] + Restored(s[1..], names, f.After(s[0]))
  }

  // Some unquoted colon is not followed by a name.
  predicate HasNamelessColon(s: string, f: Quotes) {
    s != "" &&
    ((s[0] == ':' && !f.Open() && (|s| == 1 || !IsNameChar(s[1]))) || HasNamelessColon(s[1..], f.After(s[0])))
  }

  // As many parameters are recorded as the text has unquoted question marks.
  lemma {:induction false} MarksAreParameters(s: string, f: Quotes)
    ensures Marks(Rewritten(s, f).text, f) == |Rewritten(s, f).names|
    decreases |s|
  {
    if s != "" {
      var n := Consumed(s, f);
      MarksAreParameters(s[n..], f.After(s[0]));
      assert Rewritten(s, f).text[1..] == Rewritten(s[n..], f.After(s[0])).text;
    }
  }

  // A rewritten statement is not changed by rewriting it again.
  lemma {:induction false} RewritingIsIdempotent(s: string, f: Quotes)
    ensures Rewritten(Rewritten(s, f).text, f).text == Rewritten(s, f).text
    ensures |Rewritten(Rewritten(s, f).text, f).names| == |Rewritten(s, f).names|
    decreases |s|
  {
    if s != "" {
      var n := Consumed(s, f);
      RewritingIsIdempotent(s[n..], f.After(s[0]));
      assert Rewritten(s, f).text[1..] == Rewritten(s[n..], f.After(s[0])).text;
    }
  }

  lemma {:induction false} NamesAreNotColons(s: string, n: nat)
    requires n <= |s| && forall i :: 0 <= i < n ==> IsNameChar(s[i])
    ensures HasNamelessColon(s, OUTSIDE) <==> HasNamelessColon(s[n..], OUTSIDE)
  {
    if n > 0 {
      NamesAreNotColons(s[1..], n - 1);
      assert s[1..][n - 1..] == s[n..];
    } else {
      assert s[0..] == s;
    }
  }

  // What substituting the recorded names back gives.
  function Back(s: string, f: Quotes): string {
    Restored(Rewritten(s, f).text, Rewritten(s, f).names, f)
  }

  lemma BackStep(s: string, f: Quotes)
    requires s != "" && (s[0] != ':' || f.Open())
    ensures Back(s, f) == [s[0]] + Back(s[1..], f.After(s[0]))
  {
    var r, rest := Rewritten(s, f), Rewritten(s[1..], f.After(s[0]));
    assert r.text[1..] == rest.text;
    if s[0] == '?' && !f.Open() {
      assert r.names[1..] == rest.names;
    } else {
      assert r.names == rest.names;
    }
  }

  lemma BackName(s: string)
    requires s != "" && s[0] == ':'
    ensures
      var n := 1 + NameLength(s[1..]);
      Back(s, OUTSIDE) == (if n == 1 then "?" else s[..n]) + Back(s[n..], OUTSIDE)
  {
    var n := 1 + NameLength(s[1..]);
    var r, rest := Rewritten(s, OUTSIDE), Rewritten(s[n..], OUTSIDE);
    assert r.text[1..] == rest.text && r.names[1..] == rest.names;
    assert s[..n] == ":" + s[1..n];
  }

  predicate Restores(s: string, f: Quotes) {
    |Back(s, f)| == |s| && (Back(s, f) == s <==> !HasNamelessColon(s, f))
  }

  lemma StepRestores(s: string, f: Quotes)
    requires s != "" && !IsPlaceholder(s, f) && Restores(s[1..], f.After(s[0]))
    ensures Restores(s, f)
  {
    BackStep(s, f);
    hide Back;
    assert s == [s[0]] + s[1..];
    assert Back(s, f)[1..] == Back(s[1..], f.After(s[0]));
  }

  lemma NamelessAtPlaceholder(s: string, f: Quotes)
    requires IsPlaceholder(s, f)
    ensures HasNamelessColon(s, f) <==>
            NameLength(s[1..]) == 0 || HasNamelessColon(s[1 + NameLength(s[1..])..], f)
  {
    var n := NameLength(s[1..]);
    assert f == OUTSIDE;
    NamesAreNotColons(s[1..], n);
    assert s[1..][n..] == s[1 + n..];
    assert n == 0 <==> |s| == 1 || !IsNameChar(s[1]);
  }

  lemma NameRestores(s: string, f: Quotes)
    requires IsPlaceholder(s, f) && Restores(s[1 + NameLength(s[1..])..], f)
    ensures Restores(s, f)
  {
    assert f == OUTSIDE;
    NamelessAtPlaceholder(s, f);
    BackName(s);
    var n := 1 + NameLength(s[1..]);
    hide Back, NameLength, HasNamelessColon;
    assert s == s[..n] + s[n..];
    SamePrefix(s[..n], Back(s[n..], f), s[n..]);
  }

  lemma SamePrefix(a: string, b: string, c: string)
    ensures a + b == a + c <==> b == c
  {
    assert (a + b)[|a|..] == b && (a + c)[|a|..] == c;
  }

  // Substituting the recorded names back restores the statement exactly when every unquoted colon
  // has a name; a colon without one comes back as a question mark.
  lemma {:induction false} NamesRestore(s: string, f: Quotes)
    ensures |Back(s, f)| == |s|
    ensures Back(s, f) == s <==> !HasNamelessColon(s, f)
    decreases |s|
  {
    if IsPlaceholder(s, f) {
      NamesRestore(s[1 + NameLength(s[1..])..], f);
      NameRestores(s, f);
    } else if s != "" {
      NamesRestore(s[1..], f.After(s[0]));
      StepRestores(s, f);
    }
  }

  // The rewriting, character by character.

  // Text that holds no quote character is copied inside quotes, whatever marks and colons it has.
  lemma {:induction false} CopiedInside(t: string, rest: string, f: Quotes)
    requires f.single || f.double
    requires forall i :: 0 <= i < |t| ==> t[i] != '\'' && t[i] != '"'
    ensures Rewritten(t + rest, f) == Rewritten(rest, f).After(t, [])
  {
    if t == "" {
      assert t + rest == rest && t + Rewritten(rest, f).text == Rewritten(rest, f).text;
      assert [] + Rewritten(rest, f).names == Rewritten(rest, f).names;
    } else {
      CopiedInside(t[1..], rest, f);
      assert (t + rest)[1..] == t[1..] + rest;
      AfterAfter(Rewritten(rest, f), [t[0]], [], t[1..], []);
      assert [t[0]] + t[1..] == t;
    }
  }

  lemma QuoteStep(q: char, rest: string, f: Quotes)
    requires q == '\'' || q == '"'
    ensures Rewritten([q] + rest, f)
         == Rewritten(rest, if q == '\'' then Quotes(!f.single, f.double) else Quotes(f.single, !f.double)).After([q], [])
  {
    assert ([q] + rest)[1..] == rest;
  }

  // A quoted text is copied with its quotes, and records nothing; what follows it is outside again.
  lemma QuotedIsCopied(t: string, rest: string)
    requires forall i :: 0 <= i < |t| ==> t[i] != '\'' && t[i] != '"'
    ensures Rewritten("'" + (t + ("'" + rest)), OUTSIDE) == Rewritten(rest, OUTSIDE).After("'" + t + "'", [])
    ensures Rewritten("\"" + (t + ("\"" + rest)), OUTSIDE) == Rewritten(rest, OUTSIDE).After("\"" + t + "\"", [])
  {
    forall q | q == '\'' || q == '"'
      ensures Rewritten([q] + (t + ([q] + rest)), OUTSIDE) == Rewritten(rest, OUTSIDE).After([q] + t + [q], [])
    {
      QuotedBy(q, t, rest);
    }
    assert ['\''] == "'" && ['"'] == "\"";
  }

  lemma QuotedBy(q: char, t: string, rest: string)
    requires q == '\'' || q == '"'
    requires forall i :: 0 <= i < |t| ==> t[i] != '\'' && t[i] != '"'
    ensures Rewritten([q] + (t + ([q] + rest)), OUTSIDE) == Rewritten(rest, OUTSIDE).After([q] + t + [q], [])
  {
    hide Rewritten;
    var inside := if q == '\'' then Quotes(true, false) else Quotes(false, true);
    QuoteStep(q, t + ([q] + rest), Quotes(false, false));
    CopiedInside(t, [q] + rest, inside);
    QuoteStep(q, rest, inside);
    Outside();
    AfterAfter(Rewritten(rest, OUTSIDE), t, [], [q], []);
    AfterAfter(Rewritten(rest, OUTSIDE), [q], [], t + [q], []);
    assert [q] + (t + [q]) == [q] + t + [q];
  }

  lemma Outside()
    ensures OUTSIDE == Quotes(false, false)
  {}

  // The two kinds do not nest: a quote character of the other kind inside quotes opens quotes of its
  // own, so that the text after the closing character is still copied.
  lemma QuotesDoNotNest(t: string)
    requires forall i :: 0 <= i < |t| ==> t[i] != '\'' && t[i] != '"'
    ensures Rewritten("'\"'" + t, OUTSIDE) == Parsed("'\"'" + t, [])
  {
    hide Rewritten;
    Outside();
    assert "'\"'" + t == ['\''] + (['"'] + (['\''] + t));
    QuoteStep('\'', ['"'] + (['\''] + t), Quotes(false, false));
    QuoteStep('"', ['\''] + t, Quotes(true, false));
    QuoteStep('\'', t, Quotes(true, true));
    CopiedInside(t, "", Quotes(false, true));
    NothingRewritten(Quotes(false, true));
    assert t + "" == t;
  }

  lemma NameBehindColon(n: string, rest: string)
    requires forall i :: 0 <= i < |n| ==> IsNameChar(n[i])
    requires rest != "" ==> !IsNameChar(rest[0])
    ensures var s := ":" + (n + rest); NameLength(s[1..]) == |n| && s[1..1 + |n|] == n && s[1 + |n|..] == rest
  {
    NameLengthIs(n + rest, |n|);
    assert (":" + (n + rest))[1..] == n + rest;
  }

  // Outside quotes a colon and the letters, digits and underscores behind it, if any, become one mark
  // with that name; a mark is recorded without a name; any other character is copied.
  lemma NameIsRecorded(n: string, rest: string)
    requires forall i :: 0 <= i < |n| ==>
      'a' <= n[i] <= 'z' || 'A' <= n[i] <= 'Z' || '0' <= n[i] <= '9' || n[i] == '_'
    requires rest != "" ==>
      !('a' <= rest[0] <= 'z' || 'A' <= rest[0] <= 'Z' || '0' <= rest[0] <= '9' || rest[0] == '_')
    ensures Rewritten(":" + (n + rest), OUTSIDE) == Rewritten(rest, OUTSIDE).After("?", [n])
  {
    NameBehindColon(n, rest);
    Outside();
    hide NameLength, IsNameChar;
  }

  lemma MarkIsRecorded(rest: string)
    ensures Rewritten("?" + rest, OUTSIDE) == Rewritten(rest, OUTSIDE).After("?", [""])
  {
    assert ("?" + rest)[1..] == rest;
  }

  lemma OtherIsCopied(c: char, rest: string)
    requires c != '\'' && c != '"' && c != ':' && c != '?'
    ensures Rewritten([c] + rest, OUTSIDE) == Rewritten(rest, OUTSIDE).After([c], [])
  {
    assert ([c] + rest)[1..] == rest;
  }

  lemma AfterAfter(p: Parsed, t: string, n: seq<string>, t': string, n': seq<string>)
    ensures p.After(t', n').After(t, n) == p.After(t + t', n + n')
  {
    assert t + (t' + p.text) == t + t' + p.text && n + (n' + p.names) == n + n' + p.names;
  }

  lemma NothingRewritten(f: Quotes)
    ensures Rewritten("", f) == Parsed("", [])
  {}

  // One step of the scanner, after t has been written and n recorded.
  lemma RewrittenUnfolds(s: string, f: Quotes, t: string, n: seq<string>)
    requires s != ""
    ensures Rewritten(s, f).After(t, n)
         == Rewritten(s[Consumed(s, f)..], f.After(s[0])).After(t + Written(s, f), n + Recorded(s, f))
    ensures IsPlaceholder(s, f) ==>
      Consumed(s, f) == 1 + NameLength(s[1..]) && Written(s, f) == "?" && Recorded(s, f) == [s[1..1 + NameLength(s[1..])]]
    ensures !IsPlaceholder(s, f) ==>
      Consumed(s, f) == 1 && Written(s, f) == [s[0]] && Recorded(s, f) == if s[0] == '?' && !f.Open() then [""] else []
  {
    AfterAfter(Rewritten(s[Consumed(s, f)..], f.After(s[0])), t, n, Written(s, f), Recorded(s, f));
  }

  lemma NameLengthIs(s: string, n: nat)
    requires n <= |s| && (forall i :: 0 <= i < n ==> IsNameChar(s[i])) && (n < |s| ==> !IsNameChar(s[n]))
    ensures NameLength(s) == n
  {}

  class Statement {
    var parameters: seq<string>

    constructor ()
      ensures parameters == []
    {
      parameters := [];
    }

    // The inner loop: i goes from the character after a colon to the last one of the name, and name is
    // what it passes. Without a name it goes back to the colon.
    method ScanName(statement: string, colon: nat) returns (name: string, i: nat)
      requires colon < |statement|
      ensures i == colon + NameLength(statement[colon + 1..]) && name == statement[colon + 1..i + 1]
    {
      ghost var rest := statement[colon + 1..];
      i := colon + 1;
      name := "";
      while i < |statement| && IsNameChar(statement[i])
        invariant colon < i <= |statement| && name == statement[colon + 1..i]
        invariant forall k :: 0 <= k < i - colon - 1 ==> IsNameChar(rest[k])
      {
        assert rest[i - colon - 1] == statement[i];
        name := name + [statement[i]];
        i := i + 1;
      }
      NameLengthIs(rest, i - colon - 1);
      i := i - 1;
    }

    method Parse(statement: string) returns (q: string)
      modifies this
      ensures Parsed(q, parameters) == Rewritten(statement, OUTSIDE)
    {
      hide Rewritten, Consumed, Written, Recorded, NameLength;
      parameters := [];
      q := "";
      var ssq, dsq := false, false;
      var i := 0;
      ghost var f := OUTSIDE;
      assert statement[0..] == statement;
      while i < |statement|
        invariant i <= |statement| && f == Quotes(ssq, dsq)
        invariant Rewritten(statement[i..], f).After(q, parameters) == Rewritten(statement, OUTSIDE)
        decreases |statement| - i
      {
        ghost var rest := statement[i..];
        RewrittenUnfolds(rest, f, q, parameters);
        var c := statement[i];
        if c == '\'' {
          ssq := !ssq;
          q := q + [c];
        } else if c == '"' {
          dsq := !dsq;
          q := q + [c];
        } else if c == '?' {
          if !ssq && !dsq {
            parameters := parameters + [""];
          }
          q := q + [c];
        } else if c == ':' {
          if !ssq && !dsq {
            assert rest[1..] == statement[i + 1..];
            var name, last := ScanName(statement, i);
            assert rest[1..last + 1 - i] == name;
            i := last;
            parameters := parameters + [name];
            q := q + "?";
          } else {
            q := q + [c];
          }
        } else {
          q := q + [c];
        }
        i := i + 1;
        f := f.After(c);
      }
      NothingRewritten(f);
      assert statement[i..] == "" && q + "" == q && parameters + [] == parameters;
    }
  }
}
