/**
 * The search-term handling of the Index actions: a blank term adds no
 * filter; otherwise the term is rewritten into a SQL LIKE pattern and
 * wrapped in `%...%`.  The model produces the pattern string; how the
 * database interprets it is not part of the model.
 *
 * Invoices and time entries escape `%`, `_` and `[` before turning `*`
 * into `%`; clients only turn `*` into `%`.
 */
module SearchPattern {
  import opened Wrappers
  import opened Text

  // ---------------------------------------------------------------------
  // Invoices and time entries
  // ---------------------------------------------------------------------

  /** The chain of ordinal replacements, in the order the controllers
      apply them: `%`, then `_`, then `[`, then `*`. */
  function EscapeTerm(term: string): (r: string)
    ensures r == EscapeEach(term)
    ensures forall i :: 0 <= i < |r| ==> r[i] != '*'
  {
    EscapeTermPerChar(term);
    NoStarInEscape(term);
    ReplaceAll(ReplaceAll(ReplaceAll(ReplaceAll(term, "%", "[%]"), "_", "[_]"), "[", "[[]"), "*", "%")
  }

  /** What one character of the term ends up as after the whole chain.
      The `[` step also rewrites the brackets that the `%` and `_` steps
      introduced, so `%` ends as `[[]%]`. */
  function EscapeOne(c: char): string {
    if c == '%' then "[[]%]"
    else if c == '_' then "[[]_]"
    else if c == '[' then "[[]"
    else if c == '*' then "%"
    else [c]
  }

  /** The chain, character by character. */
  function EscapeEach(s: string): string {
    if s == [] then [] else EscapeOne(s[0]) + EscapeEach(s[1..])
  }

  /** The four replacements with their one-character patterns. */
  function Chain(s: string): string {
    ReplaceChar(ReplaceChar(ReplaceChar(ReplaceChar(s, '%', "[%]"), '_', "[_]"), '[', "[[]"), '*', "%")
  }

  lemma ChainOne(x: char)
    ensures Chain([x]) == EscapeOne(x)
  {
    if x == '%' {
      ChainPercent();
    } else if x == '_' {
      ChainUnderscore();
    } else {
      ChainOther(x);
    }
  }

  lemma ChainPercent()
    ensures Chain("%") == "[[]%]"
  {
    ReplaceCharOne('%', '%', "[%]");
    assert ReplaceChar("[%]", '_', "[_]") == "[%]" by {
      assert "[%]" == ['['] + ['%'] + [']'];
      ReplaceCharAppend(['['] + ['%'], [']'], '_', "[_]");
      ReplaceCharAppend(['['], ['%'], '_', "[_]");
      ReplaceCharOne('[', '_', "[_]"); ReplaceCharOne('%', '_', "[_]"); ReplaceCharOne(']', '_', "[_]");
    }
    ThreeChars('[', '%', ']', '[', "[[]");
    assert "[[]" + "%" + "]" == "[[]%]";
    ReplaceCharAppend("[[]", "%]", '*', "%");
    ThreeChars('[', '[', ']', '*', "%");
    ReplaceCharOne('%', '*', "%");
    ReplaceCharOne(']', '*', "%");
    ReplaceCharAppend("%", "]", '*', "%");
    assert "%]" == "%" + "]";
    assert "[[]%]" == "[[]" + "%]";
  }

  lemma ChainUnderscore()
    ensures Chain("_") == "[[]_]"
  {
    ReplaceCharOne('_', '%', "[%]");
    ReplaceCharOne('_', '_', "[_]");
    ThreeChars('[', '_', ']', '[', "[[]");
    assert "[[]" + "_" + "]" == "[[]_]";
    ReplaceCharAppend("[[]", "_]", '*', "%");
    ThreeChars('[', '[', ']', '*', "%");
    ReplaceCharOne('_', '*', "%");
    ReplaceCharOne(']', '*', "%");
    ReplaceCharAppend("_", "]", '*', "%");
    assert "_]" == "_" + "]";
    assert "[[]_]" == "[[]" + "_]";
  }

  lemma ChainOther(x: char)
    requires x != '%' && x != '_'
    ensures Chain([x]) == EscapeOne(x)
  {
    ReplaceCharOne(x, '%', "[%]");
    ReplaceCharOne(x, '_', "[_]");
    ReplaceCharOne(x, '[', "[[]");
    if x == '[' {
      ThreeChars('[', '[', ']', '*', "%");
    } else {
      ReplaceCharOne(x, '*', "%");
    }
  }

  /** Replacing in a three-character string where only the first
      character can match (or none does). */
  lemma ThreeChars(a: char, b: char, c: char, x: char, rep: string)
    requires b != x && c != x
    ensures ReplaceChar([a, b, c], x, rep) == (if a == x then rep else [a]) + [b, c]
  {
    assert [a, b, c] == [a] + [b] + [c];
    ReplaceCharAppend([a] + [b], [c], x, rep);
    ReplaceCharAppend([a], [b], x, rep);
    ReplaceCharOne(a, x, rep); ReplaceCharOne(b, x, rep); ReplaceCharOne(c, x, rep);
  }

  lemma {:induction false} ChainPerChar(s: string)
    ensures Chain(s) == EscapeEach(s)
    decreases |s|
  {
    if s == [] {
    } else {
      var x, t := s[0], s[1..];
      assert s == [x] + t;
      var a1, b1 := ReplaceChar([x], '%', "[%]"), ReplaceChar(t, '%', "[%]");
      ReplaceCharAppend([x], t, '%', "[%]");
      var a2, b2 := ReplaceChar(a1, '_', "[_]"), ReplaceChar(b1, '_', "[_]");
      ReplaceCharAppend(a1, b1, '_', "[_]");
      var a3, b3 := ReplaceChar(a2, '[', "[[]"), ReplaceChar(b2, '[', "[[]");
      ReplaceCharAppend(a2, b2, '[', "[[]");
      ReplaceCharAppend(a3, b3, '*', "%");
      assert Chain(s) == Chain([x]) + Chain(t);
      ChainOne(x);
      ChainPerChar(t);
    }
  }

  lemma EscapeTermPerChar(term: string)
    ensures ReplaceAll(ReplaceAll(ReplaceAll(ReplaceAll(term, "%", "[%]"), "_", "[_]"), "[", "[[]"), "*", "%")
            == EscapeEach(term)
  {
    var s1 := ReplaceAll(term, "%", "[%]");
    ReplaceAllSingleChar(term, '%', "[%]");
    var s2 := ReplaceAll(s1, "_", "[_]");
    ReplaceAllSingleChar(s1, '_', "[_]");
    var s3 := ReplaceAll(s2, "[", "[[]");
    ReplaceAllSingleChar(s2, '[', "[[]");
    ReplaceAllSingleChar(s3, '*', "%");
    ChainPerChar(term);
  }

  lemma {:induction false} NoStarInEscape(s: string)
    ensures forall i :: 0 <= i < |EscapeEach(s)| ==> EscapeEach(s)[i] != '*'
    decreases |s|
  {
    if s != [] {
      NoStarInEscape(s[1..]);
      var e := EscapeOne(s[0]);
      assert forall i :: 0 <= i < |e| ==> e[i] != '*';
    }
  }

  /** Every `*` of the term becomes exactly one `%`, and the rest of the
      term is escaped independently of it. */
  lemma StarBecomesPercent(a: string, b: string)
    ensures EscapeTerm(a + "*" + b) == EscapeTerm(a) + "%" + EscapeTerm(b)
  {
    EscapeEachStar(a, b);
  }

  lemma EscapeEachStar(a: string, b: string)
    ensures EscapeEach(a + "*" + b) == EscapeEach(a) + "%" + EscapeEach(b)
  {
    var t := "*" + b;
    assert a + "*" + b == a + t;
    EscapeEachAppend(a, t);
    assert t[0] == '*' && t[1..] == b;
    assert EscapeEach(t) == EscapeOne('*') + EscapeEach(b);
    var x, y := EscapeEach(a), EscapeEach(b);
    assert x + ("%" + y) == x + "%" + y;
  }

  lemma {:induction false} EscapeEachAppend(a: string, b: string)
    ensures EscapeEach(a + b) == EscapeEach(a) + EscapeEach(b)
    decreases |a|
  {
    if a == [] {
      assert a + b == b;
    } else {
      assert (a + b)[0] == a[0] && (a + b)[1..] == a[1..] + b;
      EscapeEachAppend(a[1..], b);
    }
  }

  /** The LIKE pattern of `InvoicesController.Index` and
      `TimeEntriesController.Index`; `None` means no filter is added. */
  function InvoicePattern(searchTerm: Option<string>): (r: Option<string>)
    ensures r.None? <==> IsNullOrWhiteSpace(searchTerm)
    ensures r.Some? ==> r.value == "%" + EscapeEach(searchTerm.value) + "%"
    ensures r.Some? ==> forall i :: 0 <= i < |r.value| ==> r.value[i] != '*'
  {
    if IsNullOrWhiteSpace(searchTerm) then None
    else Some("%" + EscapeTerm(searchTerm.value) + "%")
  }

  // ---------------------------------------------------------------------
  // Clients
  // ---------------------------------------------------------------------

  /** The LIKE pattern of `ClientsController.Index`: `*` becomes `%`,
      nothing is escaped. */
  function ClientPattern(searchTerm: Option<string>): (r: Option<string>)
    ensures r.None? <==> IsNullOrWhiteSpace(searchTerm)
    ensures r.Some? ==>
      var t := searchTerm.value;
      && |r.value| == |t| + 2 && r.value[0] == '%' && r.value[|t| + 1] == '%'
      && forall i :: 0 <= i < |t| ==> r.value[i + 1] == (if t[i] == '*' then '%' else t[i])
  {
    if IsNullOrWhiteSpace(searchTerm) then None
    else
      var t := searchTerm.value;
      ReplaceAllSingleChar(t, '*', "%");
      ReplaceCharPointwise(t);
      Some("%" + ReplaceAll(t, "*", "%") + "%")
  }

  lemma {:induction false} ReplaceCharPointwise(t: string)
    ensures |ReplaceChar(t, '*', "%")| == |t|
    ensures forall i :: 0 <= i < |t| ==>
      ReplaceChar(t, '*', "%")[i] == (if t[i] == '*' then '%' else t[i])
    decreases |t|
  {
    if t != [] { ReplaceCharPointwise(t[1..]); }
  }

  // ---------------------------------------------------------------------
  // Findings: the escaping does not let a literal `%` be searched for
  // ---------------------------------------------------------------------

  /** As written, the term `%` produces the same pattern as the term
      `[*]`: the `[` step re-escapes the bracket that protected `%`, and
      the `%` is left standing as a wildcard between `[[]` and `]`. */
  lemma EscapeCollision()
    ensures "%" != "[*]"
    ensures EscapeTerm("%") == EscapeTerm("[*]") == "[[]%]"
  {
    PercentEscape();
    BracketStarEscape();
  }

  lemma PercentEscape()
    ensures EscapeEach("%") == "[[]%]"
  {
    assert "%"[1..] == [];
  }

  lemma BracketStarEscape()
    ensures EscapeEach("[*]") == "[[]%]"
  {
    assert "[*]"[1..] == "*]" && "*]"[1..] == "]" && "]"[1..] == [];
    assert EscapeEach("]") == "]";
    assert EscapeEach("*]") == "%]";
    assert EscapeEach("[*]") == "[[]" + "%]";
  }

  /** As written, the clients' pattern for a literal `%` is the pattern
      for `*`: every client matches. */
  lemma ClientPatternCollision()
    ensures ClientPattern(Some("%")) == ClientPattern(Some("*")) == Some("%%%")
  {
    assert !IsWhiteSpace("%"[0]) && !IsWhiteSpace("*"[0]);
    assert !IsNullOrWhiteSpace(Some("%")) && !IsNullOrWhiteSpace(Some("*"));
    var p, q := ClientPattern(Some("%")).value, ClientPattern(Some("*")).value;
    assert p[1] == '%' && q[1] == '%';
    assert p == "%%%" && q == "%%%";
  }

  /** The escaping evidently intended: `[` first, so that the brackets put
      around `%` and `_` survive, then `*` into `%`. */
  function EscapeTermOrdered(term: string): (r: string)
    ensures r == EscapeEachOrdered(term)
  {
    OrderedPerChar(term);
    ReplaceAll(ReplaceAll(ReplaceAll(ReplaceAll(term, "[", "[[]"), "%", "[%]"), "_", "[_]"), "*", "%")
  }

  function EscapeOneOrdered(c: char): string {
    if c == '[' then "[[]"
    else if c == '%' then "[%]"
    else if c == '_' then "[_]"
    else if c == '*' then "%"
    else [c]
  }

  function EscapeEachOrdered(s: string): string {
    if s == [] then [] else EscapeOneOrdered(s[0]) + EscapeEachOrdered(s[1..])
  }

  function ChainOrdered(s: string): string {
    ReplaceChar(ReplaceChar(ReplaceChar(ReplaceChar(s, '[', "[[]"), '%', "[%]"), '_', "[_]"), '*', "%")
  }

  lemma ChainOrderedOne(x: char)
    ensures ChainOrdered([x]) == EscapeOneOrdered(x)
  {
    ReplaceCharOne(x, '[', "[[]");
    if x == '[' {
      ThreeChars('[', '[', ']', '%', "[%]");
      ThreeChars('[', '[', ']', '_', "[_]");
      ThreeChars('[', '[', ']', '*', "%");
    } else {
      ReplaceCharOne(x, '%', "[%]");
      if x == '%' {
        ThreeChars('[', '%', ']', '_', "[_]");
        ThreeChars('[', '%', ']', '*', "%");
      } else {
        ReplaceCharOne(x, '_', "[_]");
        if x == '_' {
          ThreeChars('[', '_', ']', '*', "%");
        } else {
          ReplaceCharOne(x, '*', "%");
        }
      }
    }
  }

  lemma {:induction false} ChainOrderedPerChar(s: string)
    ensures ChainOrdered(s) == EscapeEachOrdered(s)
    decreases |s|
  {
    if s != [] {
      var x, t := s[0], s[1..];
      assert s == [x] + t;
      var a1, b1 := ReplaceChar([x], '[', "[[]"), ReplaceChar(t, '[', "[[]");
      ReplaceCharAppend([x], t, '[', "[[]");
      var a2, b2 := ReplaceChar(a1, '%', "[%]"), ReplaceChar(b1, '%', "[%]");
      ReplaceCharAppend(a1, b1, '%', "[%]");
      var a3, b3 := ReplaceChar(a2, '_', "[_]"), ReplaceChar(b2, '_', "[_]");
      ReplaceCharAppend(a2, b2, '_', "[_]");
      ReplaceCharAppend(a3, b3, '*', "%");
      assert ChainOrdered(s) == ChainOrdered([x]) + ChainOrdered(t);
      ChainOrderedOne(x);
      ChainOrderedPerChar(t);
    }
  }

  lemma OrderedPerChar(term: string)
    ensures ReplaceAll(ReplaceAll(ReplaceAll(ReplaceAll(term, "[", "[[]"), "%", "[%]"), "_", "[_]"), "*", "%")
            == EscapeEachOrdered(term)
  {
    var s1 := ReplaceAll(term, "[", "[[]");
    ReplaceAllSingleChar(term, '[', "[[]");
    var s2 := ReplaceAll(s1, "%", "[%]");
    ReplaceAllSingleChar(s1, '%', "[%]");
    var s3 := ReplaceAll(s2, "_", "[_]");
    ReplaceAllSingleChar(s2, '_', "[_]");
    ReplaceAllSingleChar(s3, '*', "%");
    ChainOrderedPerChar(term);
  }

  /** Reads an ordered-escaped pattern back: a bracketed character is
      literal, a bare `%` is the user's `*`. */
  function Unescape(p: string): string
    decreases |p|
  {
    if p == [] then []
    else if p[0] == '[' && |p| >= 3 && p[2] == ']' then [p[1]] + Unescape(p[3..])
    else if p[0] == '%' then "*" + Unescape(p[1..])
    else [p[0]] + Unescape(p[1..])
  }

  /** With `[` escaped first, the pattern determines the term: literal
      `%`, `_` and `[` stay distinguishable from the `*` wildcard. */
  lemma {:induction false} OrderedEscapeRoundTrip(term: string)
    ensures Unescape(EscapeTermOrdered(term)) == term
    decreases |term|
  {
    if term != [] {
      var c, rest := term[0], EscapeEachOrdered(term[1..]);
      var p := EscapeOneOrdered(c) + rest;
      assert EscapeTermOrdered(term) == p;
      OrderedEscapeRoundTrip(term[1..]);
      if c == '[' || c == '%' || c == '_' {
        assert p[3..] == rest;
      } else {
        assert p[1..] == rest;
      }
      assert term == [c] + term[1..];
    }
  }

  lemma OrderedEscapeInjective(a: string, b: string)
    requires EscapeTermOrdered(a) == EscapeTermOrdered(b)
    ensures a == b
  {
    OrderedEscapeRoundTrip(a);
    OrderedEscapeRoundTrip(b);
  }
}
