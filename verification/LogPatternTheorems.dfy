/**
 The pattern compiler is a bijection between the accepted patterns and the canonical item lists, and
 putting two patterns side by side means putting their item lists side by side.
 */
module LogPatternTheorems {
  import opened Common
  import opened LogPattern

  // ---------- Directives ----------

  lemma LetterEndIs(q: string, j: nat, e: nat)
    requires j <= e <= |q| && (forall k :: j <= k < e ==> IsAlpha(q[k])) && (e < |q| ==> !IsAlpha(q[e]))
    ensures LetterEnd(q, j) == e
    decreases e - j
  {
    if j < e { LetterEndIs(q, j + 1, e); }
  }

  lemma CloseAtIs(q: string, j: nat, e: nat)
    requires j <= e < |q| && q[e] == '}' && forall k :: j <= k < e ==> q[k] != '}'
    ensures CloseAt(q, j) == e
    decreases e - j
  {
    if j < e { CloseAtIs(q, j + 1, e); }
  }

  lemma UnbracedMatches(q: string)
    requires Unbraced(q)
    ensures MatchDirective(q) == Found([q[1]], "", 2)
  {
    LetterEndIs(q, 1, 2);
    assert q[1..2] == [q[1]];
  }

  lemma BracedMatches(q: string, c: nat)
    requires Braced(q, c)
    ensures MatchDirective(q) == Found([q[1]], q[3..c], c + 1)
  {
    LetterEndIs(q, 1, 2);
    CloseAtIs(q, 4, c);
    assert q[1..2] == [q[1]];
  }

  /** A directive with a known name is one of the two forms of the grammar. */
  lemma KnownMatches(q: string)
    requires q != "" && q[0] == '%'
    requires MatchDirective(q).Found? && Known(MatchDirective(q).name)
    ensures Unbraced(q) || exists c: nat :: Braced(q, c)
  {
    var e := LetterEnd(q, 1);
    assert MatchDirective(q).name == q[1..e];
    assert e == 2 && q[1..2] == [q[1]];
    if 2 < |q| && q[2] == '{' {
      assert Braced(q, CloseAt(q, 4));
    }
  }

  // ---------- Exactly the grammar ----------

  predicate AllKnown(ts: seq<Token>) {
    forall k :: 0 <= k < |ts| ==> KnownToken(ts[k])
  }

  lemma AllKnownConcat(a: seq<Token>, b: seq<Token>)
    ensures AllKnown(a + b) <==> AllKnown(a) && AllKnown(b)
  {
    if AllKnown(a + b) {
      forall k | 0 <= k < |a| ensures KnownToken(a[k]) { assert (a + b)[k] == a[k]; }
      forall k | 0 <= k < |b| ensures KnownToken(b[k]) { assert (a + b)[|a| + k] == b[k]; }
    }
  }

  lemma {:induction false} KnownIffAccepted(q: string, pending: string)
    ensures AllKnown(Tokens(q, pending)) <==> Accepted(q)
    decreases |q|
  {
    if q == "" {
    } else if q[0] != '%' {
      KnownIffAccepted(q[1..], pending + [q[0]]);
    } else if 1 < |q| && q[1] == '%' {
      KnownIffAccepted(q[1..], pending + ['%']);
    } else {
      DirectiveIffAccepted(q, pending);
    }
  }

  lemma {:induction false} DirectiveIffAccepted(q: string, pending: string)
    requires q != "" && q[0] == '%' && !(1 < |q| && q[1] == '%')
    ensures AllKnown(Tokens(q, pending)) <==> Accepted(q)
    decreases |q|, 0
  {
    var m := MatchDirective(q);
    if m.Found? {
      var head := Flush(pending) + [Directive(m.name, m.fmt)];
      AllKnownConcat(head, Tokens(q[m.next..], ""));
      AllKnownConcat(Flush(pending), [Directive(m.name, m.fmt)]);
      KnownIffAccepted(q[m.next..], "");
      assert [Directive(m.name, m.fmt)][0] == Directive(m.name, m.fmt);
      if Known(m.name) { KnownMatches(q); }
      if Unbraced(q) { UnbracedMatches(q); }
      if c: nat :| Braced(q, c) { BracedMatches(q, c); }
      assert AllKnown(Tokens(q, pending)) <==> Known(m.name) && Accepted(q[m.next..]);
    } else {
      if Unbraced(q) { UnbracedMatches(q); }
      if c: nat :| Braced(q, c) { BracedMatches(q, c); }
      assert !KnownToken((([PATTERN_ERROR] + Tokens(q[1..], pending)))[0]);
    }
  }

  /** `m_error` stays false for exactly the patterns of the grammar. */
  lemma ExactLanguage(p: string)
    ensures !IsError(p) <==> Accepted(p)
  {
    KnownIffAccepted(p, "");
  }

  // ---------- Reading an accepted pattern ----------

  lemma {:induction false} PrintConcat(a: seq<Item>, b: seq<Item>)
    ensures Print(a + b) == Print(a) + Print(b)
  {
    if a == [] {
      assert a + b == b;
    } else {
      assert (a + b)[1..] == a[1..] + b;
      PrintConcat(a[1..], b);
    }
  }

  lemma BuildConcat(a: seq<Token>, b: seq<Token>)
    ensures Build(a + b) == Build(a) + Build(b)
  {
  }

  function FlushItems(pending: string): seq<Item> {
    if pending == "" then [] else [Literal(pending)]
  }

  /** Items of an accepted text, step by step. */
  function Compile(q: string, pending: string): seq<Item> {
    Build(Tokens(q, pending))
  }

  lemma CompileUnbraced(q: string, pending: string)
    requires Unbraced(q)
    ensures Compile(q, pending) == FlushItems(pending) + [Field(q[1], "")] + Compile(q[2..], "")
  {
    UnbracedMatches(q);
    assert q[1] != '%';
    BuildConcat(Flush(pending) + [Directive([q[1]], "")], Tokens(q[2..], ""));
  }

  lemma CompileBraced(q: string, c: nat, pending: string)
    requires Braced(q, c)
    ensures Compile(q, pending) == FlushItems(pending) + [Field(q[1], q[3..c])] + Compile(q[c + 1..], "")
  {
    BracedMatches(q, c);
    assert q[1] != '%';
    BuildConcat(Flush(pending) + [Directive([q[1]], q[3..c])], Tokens(q[c + 1..], ""));
  }

  lemma PrintField(pending: string, key: char, fmt: string, rest: seq<Item>)
    ensures Print(FlushItems(pending) + [Field(key, fmt)] + rest) == pending + PrintItem(Field(key, fmt)) + Print(rest)
  {
    var x := Field(key, fmt);
    PrintConcat(FlushItems(pending) + [x], rest);
    PrintConcat(FlushItems(pending), [x]);
    PrintOne(Literal(pending));
    PrintOne(x);
  }

  lemma PrintOne(x: Item)
    ensures Print([x]) == PrintItem(x)
  {
    assert Print([x]) == PrintItem(x) + Print([]);
  }

  lemma {:induction false} PrintCompile(q: string, pending: string)
    requires Accepted(q)
    ensures Print(Compile(q, pending)) == pending + q
    decreases |q|
  {
    if q == "" {
    } else if PlainChar(q) {
      PrintCompile(q[1..], pending + [q[0]]);
      PrintChar(q, pending);
    } else if DoublePercent(q) {
      PrintCompile(q[1..], pending + ['%']);
      PrintChar(q, pending);
    } else {
      PrintDirective(q, pending);
    }
  }

  lemma PrintChar(q: string, pending: string)
    requires q != "" && (q[0] == '%' ==> 1 < |q| && q[1] == '%')
    requires Print(Compile(q[1..], pending + [q[0]])) == pending + [q[0]] + q[1..]
    ensures Print(Compile(q, pending)) == pending + q
  {
    TokensChar(q, pending);
    assert pending + [q[0]] + q[1..] == pending + q;
  }

  lemma SpellBraced(pending: string, q: string, c: nat)
    requires Braced(q, c)
    ensures pending + PrintItem(Field(q[1], q[3..c])) + q[c + 1..] == pending + q
  {
    var f := PrintItem(Field(q[1], q[3..c]));
    assert f == q[..c + 1];
    assert f + q[c + 1..] == q;
    assert pending + f + q[c + 1..] == pending + (f + q[c + 1..]);
  }

  lemma {:induction false} PrintDirective(q: string, pending: string)
    requires Accepted(q) && q != "" && !PlainChar(q) && !DoublePercent(q)
    ensures Print(Compile(q, pending)) == pending + q
    decreases |q|, 0
  {
    if Unbraced(q) && Accepted(q[2..]) {
      PrintCompile(q[2..], "");
      PrintUnbraced(q, pending);
    } else {
      var c: nat :| Braced(q, c) && Accepted(q[c + 1..]);
      PrintCompile(q[c + 1..], "");
      PrintBraced(q, c, pending);
    }
  }

  lemma PrintUnbraced(q: string, pending: string)
    requires Unbraced(q) && Print(Compile(q[2..], "")) == q[2..]
    ensures Print(Compile(q, pending)) == pending + q
  {
    CompileUnbraced(q, pending);
    PrintField(pending, q[1], "", Compile(q[2..], ""));
    var f := PrintItem(Field(q[1], ""));
    assert f + q[2..] == q;
    assert pending + f + q[2..] == pending + (f + q[2..]);
  }

  lemma PrintBraced(q: string, c: nat, pending: string)
    requires Braced(q, c) && Print(Compile(q[c + 1..], "")) == q[c + 1..]
    ensures Print(Compile(q, pending)) == pending + q
  {
    CompileBraced(q, c, pending);
    PrintField(pending, q[1], q[3..c], Compile(q[c + 1..], ""));
    SpellBraced(pending, q, c);
  }

  /** Printing the compiled items of an accepted pattern gives the pattern back. */
  lemma PatternRoundTrip(p: string)
    requires !IsError(p)
    ensures Print(Items(p)) == p
  {
    ExactLanguage(p);
    PrintCompile(p, "");
  }

  // ---------- Compilations are canonical ----------

  predicate EndsInPercent(x: Item) {
    x.Literal? && x.s != "" && x.s[|x.s| - 1] == '%'
  }

  lemma CanonicalCons(x: Item, xs: seq<Item>)
    requires GoodItem(x) && Canonical(xs)
    requires if xs == [] then !EndsInPercent(x) else Joint(x, xs[0])
    ensures Canonical([x] + xs)
  {
    var ys := [x] + xs;
    forall k | 0 <= k < |ys| ensures GoodItem(ys[k]) { assert k > 0 ==> ys[k] == xs[k - 1]; }
    forall k: nat | k < |ys| - 1 ensures JointAt(ys, k) { assert k > 0 ==> JointAt(xs, k - 1); }
  }

  lemma CanonicalTail(xs: seq<Item>)
    requires Canonical(xs) && xs != []
    ensures GoodItem(xs[0]) && Canonical(xs[1..])
    ensures |xs| > 1 ==> Joint(xs[0], xs[1])
    ensures |xs| == 1 ==> !EndsInPercent(xs[0])
  {
    var ys := xs[1..];
    forall k | 0 <= k < |ys| ensures GoodItem(ys[k]) { assert ys[k] == xs[k + 1]; }
    forall k: nat | k < |ys| - 1 ensures JointAt(ys, k) { assert JointAt(xs, k + 1); }
    assert |xs| > 1 ==> JointAt(xs, 0);
  }

  /** Literal text on its way: a `%` in it is followed by another, in the text or at the start of `q`. */
  predicate GoodPending(pending: string, q: string) {
    forall k: nat :: k < |pending| ==> Doubled(pending + q, k)
  }

  lemma PendingIsGood(pending: string, q: string)
    requires GoodPending(pending, q) && pending != ""
    ensures GoodText(pending) && (q == "" ==> !EndsInPercent(Literal(pending)))
  {
    forall k: nat | k < |pending| - 1 ensures Doubled(pending, k) { assert Doubled(pending + q, k); }
    assert Doubled(pending + q, |pending| - 1);
  }

  lemma PendingGrows(pending: string, q: string)
    requires GoodPending(pending, q) && q != "" && Doubled(q, 0)
    ensures GoodPending(pending + [q[0]], q[1..]) && pending + [q[0]] + q[1..] == pending + q
  {
    assert pending + [q[0]] + q[1..] == pending + q;
    assert Doubled(pending + q, |pending|);
  }

  lemma PendingShrinks(s: string, rest: string)
    requires GoodPending(s, rest) && s != ""
    ensures GoodPending(s[1..], rest) && Doubled(s + rest, 0)
  {
    forall k: nat | k < |s[1..]| ensures Doubled(s[1..] + rest, k) {
      assert Doubled(s + rest, k + 1);
      assert (s + rest)[1..] == s[1..] + rest;
    }
  }

  lemma TextBefore(s: string, rest: string)
    requires GoodText(s) && (rest == "" ==> s[|s| - 1] != '%') && (rest != "" ==> rest[0] == '%')
    ensures GoodPending(s, rest)
  {
    forall k: nat | k < |s| ensures Doubled(s + rest, k) {
      assert k < |s| - 1 ==> Doubled(s, k);
    }
  }

  /** The first item starts with the first character of the text. */
  predicate StartsLike(xs: seq<Item>, text: string) {
    xs != [] && xs[0].Literal? && xs[0].s != "" ==> text != "" && xs[0].s[0] == text[0]
  }

  lemma PrintStartsLike(xs: seq<Item>)
    ensures StartsLike(xs, Print(xs))
  {
  }

  lemma {:induction false} CompileCanonical(q: string, pending: string)
    requires Accepted(q) && GoodPending(pending, q)
    ensures Canonical(Compile(q, pending))
    decreases |q|
  {
    if q == "" {
      if pending != "" {
        PendingIsGood(pending, q);
        CanonicalCons(Literal(pending), []);
      }
    } else if PlainChar(q) {
      PendingGrows(pending, q);
      TokensChar(q, pending);
      CompileCanonical(q[1..], pending + [q[0]]);
    } else if DoublePercent(q) {
      PendingGrows(pending, q);
      TokensChar(q, pending);
      CompileCanonical(q[1..], pending + ['%']);
    } else if Unbraced(q) && Accepted(q[2..]) {
      CompileUnbraced(q, pending);
      CompileCanonical(q[2..], "");
      FieldCanonical(pending, q, q[1], "", q[2..]);
    } else {
      var c: nat :| Braced(q, c) && Accepted(q[c + 1..]);
      CompileBraced(q, c, pending);
      CompileCanonical(q[c + 1..], "");
      FieldCanonical(pending, q, q[1], q[3..c], q[c + 1..]);
    }
  }

  lemma FieldCanonical(pending: string, q: string, key: char, fmt: string, rest: string)
    requires GoodItem(Field(key, fmt)) && Accepted(rest) && Canonical(Compile(rest, ""))
    requires fmt == "" && rest != "" ==> !IsAlpha(rest[0]) && rest[0] != '{'
    requires GoodPending(pending, q)
    ensures Canonical(FlushItems(pending) + [Field(key, fmt)] + Compile(rest, ""))
  {
    var xs := Compile(rest, "");
    PrintCompile(rest, "");
    PrintStartsLike(xs);
    CanonicalCons(Field(key, fmt), xs);
    var ys := [Field(key, fmt)] + xs;
    FlushCanonical(pending, q, ys);
    Regrouped(FlushItems(pending), ys);
  }

  lemma FlushCanonical(pending: string, q: string, ys: seq<Item>)
    requires Canonical(ys) && ys != [] && ys[0].Field? && GoodPending(pending, q)
    ensures Canonical(FlushItems(pending) + ys)
  {
    if pending != "" {
      PendingIsGood(pending, q);
      CanonicalCons(Literal(pending), ys);
    } else {
      assert FlushItems(pending) + ys == ys;
    }
  }

  lemma Regrouped(a: seq<Item>, xs: seq<Item>)
    requires xs != []
    ensures a + [xs[0]] + xs[1..] == a + xs
  {
  }

  // ---------- Reading a canonical list back ----------

  lemma {:induction false} ReadText(s: string, rest: string, pending: string)
    requires GoodPending(s, rest)
    ensures Tokens(s + rest, pending) == Tokens(rest, pending + s)
    decreases |s|
  {
    if s == "" {
      assert s + rest == rest && pending + s == pending;
    } else {
      assert (s + rest)[1..] == s[1..] + rest;
      assert pending + [s[0]] + s[1..] == pending + s;
      PendingShrinks(s, rest);
      ReadText(s[1..], rest, pending + [s[0]]);
      assert s[0] == '%' ==> (s + rest)[1] == '%';
    }
  }

  lemma UnbracedForm(key: char, rest: string)
    requires Known([key]) && (rest != "" ==> !IsAlpha(rest[0]) && rest[0] != '{')
    ensures Unbraced(PrintItem(Field(key, "")) + rest) && (PrintItem(Field(key, "")) + rest)[2..] == rest
  {
    assert [(PrintItem(Field(key, "")) + rest)[1]] == [key];
  }

  lemma BracedForm(key: char, fmt: string, rest: string)
    requires GoodItem(Field(key, fmt)) && fmt != ""
    ensures
      var q := PrintItem(Field(key, fmt)) + rest;
      Braced(q, |fmt| + 3) && q[3..|fmt| + 3] == fmt && q[|fmt| + 4..] == rest && q[1] == key
  {
    var q := PrintItem(Field(key, fmt)) + rest;
    assert [q[1]] == [key];
    forall k | 4 <= k < |fmt| + 3 ensures q[k] != '}' { assert q[k] == fmt[k - 3]; }
  }

  /** A field printed in front of a text that may follow it is read back as that field. */
  lemma ReadField(pending: string, key: char, fmt: string, rest: string)
    requires GoodItem(Field(key, fmt))
    requires fmt == "" && rest != "" ==> !IsAlpha(rest[0]) && rest[0] != '{'
    ensures Compile(PrintItem(Field(key, fmt)) + rest, pending) ==
            FlushItems(pending) + [Field(key, fmt)] + Compile(rest, "")
    ensures Accepted(rest) ==> Accepted(PrintItem(Field(key, fmt)) + rest)
  {
    var q := PrintItem(Field(key, fmt)) + rest;
    if fmt == "" {
      UnbracedForm(key, rest);
      CompileUnbraced(q, pending);
    } else {
      BracedForm(key, fmt, rest);
      CompileBraced(q, |fmt| + 3, pending);
    }
  }

  /** Compiling the printed text of a canonical list gives the list back. */
  lemma {:induction false} ListRoundTrip(xs: seq<Item>)
    requires Canonical(xs)
    ensures Items(Print(xs)) == xs && !IsError(Print(xs))
  {
    ReadBack(xs, "");
    ExactLanguage(Print(xs));
    assert FlushItems("") + xs == xs;
  }

  ghost predicate ReadsBack(xs: seq<Item>, pending: string) {
    Compile(Print(xs), pending) == FlushItems(pending) + xs && Accepted(Print(xs))
  }

  lemma {:induction false} ReadBack(xs: seq<Item>, pending: string)
    requires Canonical(xs) && (xs != [] && xs[0].Literal? ==> pending == "")
    ensures ReadsBack(xs, pending)
    decreases |xs|
  {
    if xs == [] {
    } else {
      CanonicalTail(xs);
      ReadBack(xs[1..], if xs[0].Field? then "" else xs[0].s);
      if xs[0].Field? {
        ReadFieldFirst(xs[0].key, xs[0].fmt, xs[1..], pending);
      } else {
        ReadLiteralFirst(xs[0].s, xs[1..]);
      }
      assert xs == [xs[0]] + xs[1..];
    }
  }

  lemma ReadLiteralFirst(s: string, tail: seq<Item>)
    requires GoodText(s) && (tail != [] ==> tail[0].Field?) && (tail == [] ==> s[|s| - 1] != '%')
    requires ReadsBack(tail, s)
    ensures ReadsBack([Literal(s)] + tail, "")
  {
    ReadLiteral(s, tail);
    PrintCons(Literal(s), tail);
    assert FlushItems("") + ([Literal(s)] + tail) == [Literal(s)] + tail;
  }

  lemma ReadFieldFirst(key: char, fmt: string, tail: seq<Item>, pending: string)
    requires GoodItem(Field(key, fmt)) && (tail != [] ==> GoodItem(tail[0]) && Joint(Field(key, fmt), tail[0]))
    requires ReadsBack(tail, "")
    ensures ReadsBack([Field(key, fmt)] + tail, pending)
  {
    FieldStops(key, fmt, tail);
    ReadField(pending, key, fmt, Print(tail));
    PrintCons(Field(key, fmt), tail);
    assert FlushItems("") + tail == tail;
    Regroup(FlushItems(pending), [Field(key, fmt)], tail);
  }

  /** What is printed after a field without braces does not prolong it. */
  lemma FieldStops(key: char, fmt: string, tail: seq<Item>)
    requires tail != [] ==> GoodItem(tail[0]) && Joint(Field(key, fmt), tail[0])
    ensures fmt == "" && Print(tail) != "" ==> !IsAlpha(Print(tail)[0]) && Print(tail)[0] != '{'
  {
    if tail != [] {
      assert Print(tail)[0] == PrintItem(tail[0])[0];
    }
  }

  lemma ReadLiteral(s: string, xs: seq<Item>)
    requires GoodText(s) && (xs != [] ==> xs[0].Field?) && (xs == [] ==> s[|s| - 1] != '%')
    requires Compile(Print(xs), s) == [Literal(s)] + xs && Accepted(Print(xs))
    ensures Compile(s + Print(xs), "") == [Literal(s)] + xs && Accepted(s + Print(xs))
  {
    var rest := Print(xs);
    TextBefore(s, rest);
    ReadText(s, rest, "");
    assert "" + s == s;
    KnownIffAccepted(s + rest, "");
    KnownIffAccepted(rest, s);
  }

  lemma CompilationCanonical(p: string)
    requires !IsError(p)
    ensures Canonical(Items(p))
  {
    ExactLanguage(p);
    CompileCanonical(p, "");
  }

  /** The lists that are compilations are exactly the canonical ones. */
  lemma CompilationsAreCanonical(xs: seq<Item>)
    ensures Canonical(xs) <==> exists p :: !IsError(p) && Items(p) == xs
  {
    if Canonical(xs) {
      ListRoundTrip(xs);
    }
    if p :| !IsError(p) && Items(p) == xs {
      CompilationCanonical(p);
    }
  }

  // ---------- Two patterns side by side ----------

  /** `p` does not end in a directive without braces that `q` would prolong. */
  predicate Seam(p: string, q: string) {
    var xs := Items(p);
    xs != [] && xs[|xs| - 1].Field? && xs[|xs| - 1].fmt == "" && q != "" ==> !IsAlpha(q[0]) && q[0] != '{'
  }

  /** The same on item lists. */
  predicate MayMeet(a: seq<Item>, b: seq<Item>) {
    a != [] && b != [] && a[|a| - 1].Field? && a[|a| - 1].fmt == "" && b[0].Literal? && b[0].s != "" ==>
      !IsAlpha(b[0].s[0]) && b[0].s[0] != '{'
  }

  lemma PrintCons(x: Item, xs: seq<Item>)
    ensures Print([x] + xs) == PrintItem(x) + Print(xs)
  {
    assert ([x] + xs)[1..] == xs;
  }

  lemma {:induction false} JoinPrint(a: seq<Item>, b: seq<Item>)
    ensures Print(Join(a, b)) == Print(a) + Print(b)
    decreases |a|
  {
    if a == [] {
    } else if |a| == 1 && b != [] && a[0].Literal? && b[0].Literal? {
      MergePrint(a, b);
    } else {
      JoinPrint(a[1..], b);
      PrintCons(a[0], Join(a[1..], b));
      Regroup(PrintItem(a[0]), Print(a[1..]), Print(b));
    }
  }

  lemma MergePrint(a: seq<Item>, b: seq<Item>)
    requires |a| == 1 && b != [] && a[0].Literal? && b[0].Literal?
    ensures Print(Join(a, b)) == Print(a) + Print(b)
  {
    PrintCons(Literal(a[0].s + b[0].s), b[1..]);
    Regroup(a[0].s, b[0].s, Print(b[1..]));
    assert Print(a[1..]) == "";
  }

  /** What the joined list starts with. */
  lemma JoinHead(a: seq<Item>, b: seq<Item>)
    requires a != []
    ensures Join(a, b) != []
    ensures a[0].Field? ==> Join(a, b)[0] == a[0]
    ensures a[0].Literal? ==> Join(a, b)[0].Literal? && a[0].s <= Join(a, b)[0].s
  {
  }

  lemma MergeCanonical(x: Item, b: seq<Item>)
    requires x.Literal? && GoodItem(x) && !EndsInPercent(x) && Canonical(b) && b != [] && b[0].Literal?
    ensures Canonical([Literal(x.s + b[0].s)] + b[1..])
  {
    CanonicalTail(b);
    var y := Literal(x.s + b[0].s);
    forall k: nat | k < |y.s| - 1 ensures Doubled(y.s, k) {
      if k < |x.s| {
        assert k < |x.s| - 1 ==> Doubled(x.s, k);
      } else {
        assert Doubled(b[0].s, k - |x.s|);
      }
    }
    CanonicalCons(y, b[1..]);
  }

  lemma {:induction false} JoinCanonical(a: seq<Item>, b: seq<Item>)
    requires Canonical(a) && Canonical(b) && MayMeet(a, b)
    ensures Canonical(Join(a, b))
    decreases |a|
  {
    if a == [] {
    } else if |a| == 1 && b != [] && a[0].Literal? && b[0].Literal? {
      CanonicalTail(a);
      MergeCanonical(a[0], b);
    } else {
      CanonicalTail(a);
      assert |a| > 1 ==> a[1..][|a[1..]| - 1] == a[|a| - 1];
      JoinCanonical(a[1..], b);
      if |a| > 1 {
        JoinHead(a[1..], b);
      }
      CanonicalCons(a[0], Join(a[1..], b));
    }
  }

  lemma {:induction false} JoinNotCanonical(a: seq<Item>, b: seq<Item>)
    requires Canonical(Join(a, b))
    ensures MayMeet(a, b)
    decreases |a|
  {
    if a != [] && b != [] && a[|a| - 1].Field? {
      CanonicalTail(Join(a, b));
      assert Join(a, b)[1..] == Join(a[1..], b);
      if |a| > 1 {
        assert a[1..][|a[1..]| - 1] == a[|a| - 1];
        JoinNotCanonical(a[1..], b);
      } else {
        assert Join(a, b) == [a[0]] + b;
      }
    }
  }

  lemma SeamIffMayMeet(p: string, q: string)
    requires !IsError(p) && !IsError(q)
    ensures Seam(p, q) <==> MayMeet(Items(p), Items(q))
  {
    var b := Items(q);
    PatternRoundTrip(q);
    CompilationCanonical(q);
    if b != [] {
      CanonicalTail(b);
      assert PrintItem(b[0])[0] == q[0];
    }
  }

  /**
   Two accepted patterns compile side by side exactly when the first does not end in a directive without
   braces that the second would prolong.
   */
  lemma SideBySide(p: string, q: string)
    requires !IsError(p) && !IsError(q)
    ensures Seam(p, q) <==> !IsError(p + q) && Items(p + q) == Join(Items(p), Items(q))
  {
    var a, b := Items(p), Items(q);
    SeamIffMayMeet(p, q);
    PatternRoundTrip(p);
    PatternRoundTrip(q);
    CompilationCanonical(p);
    CompilationCanonical(q);
    JoinPrint(a, b);
    if MayMeet(a, b) {
      JoinCanonical(a, b);
      ListRoundTrip(Join(a, b));
    }
    if !IsError(p + q) && Items(p + q) == Join(a, b) {
      CompilationCanonical(p + q);
      JoinNotCanonical(a, b);
    }
  }

  lemma FormatCons(x: Item, xs: seq<Item>, render: (char, string) -> string)
    ensures Format([x] + xs, render) == FormatItem(x, render) + Format(xs, render)
  {
    assert ([x] + xs)[1..] == xs;
  }

  lemma FormatMerge(s: string, b: seq<Item>, render: (char, string) -> string)
    requires b != [] && b[0].Literal?
    ensures Format([Literal(s + b[0].s)] + b[1..], render) == s + Format(b, render)
  {
    FormatCons(Literal(s + b[0].s), b[1..], render);
    Regroup(s, b[0].s, Format(b[1..], render));
  }

  lemma {:induction false} FormatJoin(a: seq<Item>, b: seq<Item>, render: (char, string) -> string)
    ensures Format(Join(a, b), render) == Format(a, render) + Format(b, render)
    decreases |a|
  {
    if a == [] {
    } else if |a| == 1 && b != [] && a[0].Literal? && b[0].Literal? {
      FormatMerge(a[0].s, b, render);
      assert Format(a, render) == a[0].s + Format([], render) == a[0].s;
    } else {
      FormatJoin(a[1..], b, render);
      FormatCons(a[0], Join(a[1..], b), render);
      Regroup(FormatItem(a[0], render), Format(a[1..], render), Format(b, render));
    }
  }

  /** And then every event is formatted as by the one pattern followed by the other. */
  lemma FormatSideBySide(p: string, q: string, render: (char, string) -> string)
    requires !IsError(p) && !IsError(q) && Seam(p, q)
    ensures Format(Items(p + q), render) == Format(Items(p), render) + Format(Items(q), render)
  {
    SideBySide(p, q);
    FormatJoin(Items(p), Items(q), render);
  }

  // ---------- What a field contributes ----------

  /** Formatting with a renderer that spells each directive out is printing. */
  lemma {:induction false} FormatSpelled(xs: seq<Item>)
    ensures Format(xs, (k, f) => if f == "" then ['%', k] else ['%', k, '{'] + f + ['}']) == Print(xs)
  {
    if xs != [] { FormatSpelled(xs[1..]); }
  }

  /** Every directive reaches its renderer with its key and its format, in order, and all other text is kept. */
  lemma FormatSpellsPattern(p: string)
    requires !IsError(p)
    ensures Format(Items(p), (k, f) => if f == "" then ['%', k] else ['%', k, '{'] + f + ['}']) == p
  {
    FormatSpelled(Items(p));
    PatternRoundTrip(p);
  }

  // ---------- The keys ----------

  /** The directives there are. */
  lemma OneKey(c: char)
    ensures !IsError(['%', c]) <==> c in "mprctNndflTF"
  {
    var q := ['%', c];
    ExactLanguage(q);
    assert q[1..] == [c] && q[2..] == "" && [q[1]] == [c];
    if DoublePercent(q) {
      assert !Accepted(q[1..]) by { NotAPercent(); }
    }
  }

  lemma NotAPercent()
    ensures !Accepted("%")
  {
    if Accepted("%") { NeverEndsInPercent("%"); }
  }

  const DEFAULT_TIME: seq<Item> := [
    Field('d', "%Y-%m-%d %H:%M:%S"), Field('T', ""), Field('t', ""), Field('T', ""), Field('N', ""),
    Field('T', ""), Field('F', ""), Field('T', "")]
  const DEFAULT_PLACE: seq<Item> := [
    Literal("["), Field('p', ""), Literal("]"), Field('T', ""), Literal("["), Field('c', ""),
    Literal("]"), Field('T', "")]
  const DEFAULT_TEXT: seq<Item> := [
    Field('f', ""), Literal(":"), Field('l', ""), Field('T', ""), Field('m', ""), Field('n', "")]

  /** The pattern every logger starts with, item by item. */
  lemma DefaultPattern()
    ensures !IsError("%d{%Y-%m-%d %H:%M:%S}%T%t%T%N%T%F%T[%p]%T[%c]%T%f:%l%T%m%n")
    ensures Items("%d{%Y-%m-%d %H:%M:%S}%T%t%T%N%T%F%T[%p]%T[%c]%T%f:%l%T%m%n") ==
            DEFAULT_TIME + DEFAULT_PLACE + DEFAULT_TEXT
  {
    PrintTime();
    PrintPlace();
    PrintText();
    DefaultCanonical();
    ThreeParts(DEFAULT_TIME, DEFAULT_PLACE, DEFAULT_TEXT);
    DefaultText();
  }

  lemma DefaultText()
    ensures "%d{%Y-%m-%d %H:%M:%S}%T%t%T%N%T%F%T" + "[%p]%T[%c]%T" + "%f:%l%T%m%n" ==
            "%d{%Y-%m-%d %H:%M:%S}%T%t%T%N%T%F%T[%p]%T[%c]%T%f:%l%T%m%n"
  {
  }

  lemma ThreeParts(a: seq<Item>, b: seq<Item>, c: seq<Item>)
    requires Canonical(a + b + c)
    ensures Items(Print(a) + Print(b) + Print(c)) == a + b + c && !IsError(Print(a) + Print(b) + Print(c))
  {
    PrintConcat(a + b, c);
    PrintConcat(a, b);
    ListRoundTrip(a + b + c);
  }

  lemma CanonicalConcat(a: seq<Item>, b: seq<Item>)
    requires a != [] && b != [] && Canonical(a) && Canonical(b) && Joint(a[|a| - 1], b[0])
    ensures Canonical(a + b)
  {
    var xs := a + b;
    forall k: nat | k < |xs| - 1 ensures JointAt(xs, k) {
      if k < |a| - 1 {
        assert JointAt(a, k);
      } else if k >= |a| {
        assert JointAt(b, k - |a|);
      }
    }
  }

  lemma DefaultCanonical()
    ensures Canonical(DEFAULT_TIME + DEFAULT_PLACE + DEFAULT_TEXT)
  {
    TimeCanonical();
    PlaceCanonical();
    TextCanonical();
    CanonicalConcat(DEFAULT_TIME, DEFAULT_PLACE);
    CanonicalConcat(DEFAULT_TIME + DEFAULT_PLACE, DEFAULT_TEXT);
  }

  lemma TimeCanonical()
    ensures Canonical(DEFAULT_TIME)
  {
  }

  lemma PlaceCanonical()
    ensures Canonical(DEFAULT_PLACE)
  {
  }

  lemma TextCanonical()
    ensures Canonical(DEFAULT_TEXT)
  {
  }

  lemma PrintTime()
    ensures Print(DEFAULT_TIME) == "%d{%Y-%m-%d %H:%M:%S}%T%t%T%N%T%F%T"
  {
  }

  lemma PrintPlace()
    ensures Print(DEFAULT_PLACE) == "[%p]%T[%c]%T"
  {
  }

  lemma PrintText()
    ensures Print(DEFAULT_TEXT) == "%f:%l%T%m%n"
  {
  }

  // ---------- Patterns in error ----------

  predicate Plain(s: string) {
    forall k :: 0 <= k < |s| ==> s[k] != '%'
  }

  predicate Letters(s: string) {
    forall k :: 0 <= k < |s| ==> IsAlpha(s[k])
  }

  /** An opening brace follows the letters and nothing closes it. */
  predicate OpensOnly(r: string, n: nat) {
    n < |r| && Letters(r[..n]) && r[n] == '{' && forall k :: n + 2 <= k < |r| ==> r[k] != '}'
  }

  /** What may follow a percent sign that is neither a directive nor one of two. */
  ghost predicate Stray(r: string) {
    || (r == "" || (!IsAlpha(r[0]) && r[0] != '{' && r[0] != '%'))
    || exists n: nat :: OpensOnly(r, n)
  }

  lemma {:induction false} NeverCloses(q: string, j: nat)
    requires j <= |q| && forall k :: j <= k < |q| ==> q[k] != '}'
    ensures CloseAt(q, j) == |q|
    decreases |q| - j
  {
    if j < |q| { NeverCloses(q, j + 1); }
  }

  lemma StrayMatches(r: string)
    requires Stray(r)
    ensures MatchDirective("%" + r) == NoMatch
  {
    var q := "%" + r;
    if n: nat :| OpensOnly(r, n) {
      forall k | 1 <= k < n + 1 ensures IsAlpha(q[k]) { assert q[k] == r[..n][k - 1]; }
      LetterEndIs(q, 1, n + 1);
      if n + 2 < |q| { NeverCloses(q, n + 3); }
    } else {
      LetterEndIs(q, 1, 1);
    }
  }

  lemma PlainPends(s: string, rest: string)
    requires Plain(s)
    ensures Tokens(s + rest, "") == Tokens(rest, s)
  {
    forall k: nat | k < |s| ensures Doubled(s + rest, k) { assert (s + rest)[k] == s[k]; }
    ReadText(s, rest, "");
    assert "" + s == s;
  }

  /**
   A percent sign that starts no directive puts an error item in front of the text that is pending, and all
   else is compiled as if it were not there.
   */
  lemma StrayPercent(s: string, r: string)
    requires Plain(s) && Stray(r)
    ensures Items(s + "%" + r) == [Literal("<<error_format %<<pattern_error>>>>")] + Items(s + r)
    ensures IsError(s + "%" + r)
  {
    assert s + "%" + r == s + ("%" + r);
    PlainPends(s, "%" + r);
    PlainPends(s, r);
    StrayTokens(r, s);
    ErrorItem();
    BuildConcat([PATTERN_ERROR], Tokens(r, s));
    MakesError(s + "%" + r, PATTERN_ERROR);
  }

  lemma ErrorItem()
    ensures Build([PATTERN_ERROR]) == [Literal("<<error_format %<<pattern_error>>>>")]
  {
    assert ItemOf(PATTERN_ERROR) == Literal("<<error_format %<<pattern_error>>>>");
  }

  lemma StrayTokens(r: string, pending: string)
    requires Stray(r)
    ensures Tokens("%" + r, pending) == [PATTERN_ERROR] + Tokens(r, pending)
  {
    var q := "%" + r;
    assert q[1..] == r;
    StrayMatches(r);
    if r != "" { StrayNotPercent(r); }
  }

  lemma StrayNotPercent(r: string)
    requires Stray(r) && r != ""
    ensures r[0] != '%'
  {
    if n: nat :| OpensOnly(r, n) {
      assert n > 0 ==> r[..n][0] == r[0];
    }
  }

  /** A directive no one has registered is an error item in its place. */
  lemma UnknownDirective(s: string, name: string, r: string)
    requires Plain(s) && name != "" && Letters(name) && (|name| == 1 ==> name[0] !in "mprctNndflTF")
    requires r != "" ==> !IsAlpha(r[0]) && r[0] != '{'
    ensures Items(s + "%" + name + r) ==
            FlushItems(s) + [Literal("<<error_format %" + name + ">>")] + Items(r)
    ensures IsError(s + "%" + name + r)
  {
    var q := "%" + name + r;
    assert s + "%" + name + r == s + q;
    PlainPends(s, q);
    LettersMatch(name, r);
    var t := Directive(name, "");
    assert Tokens(q, s) == Flush(s) + [t] + Tokens(r, "");
    BuildThree(s, t, Tokens(r, ""));
    MakesError(s + "%" + name + r, t);
  }

  /** The same with a format, which is lost. */
  lemma UnknownBraced(s: string, name: string, fmt: string, r: string)
    requires Plain(s) && name != "" && Letters(name) && (|name| == 1 ==> name[0] !in "mprctNndflTF")
    requires fmt != "" && forall k :: 1 <= k < |fmt| ==> fmt[k] != '}'
    ensures Items(s + "%" + name + "{" + fmt + "}" + r) ==
            FlushItems(s) + [Literal("<<error_format %" + name + ">>")] + Items(r)
    ensures IsError(s + "%" + name + "{" + fmt + "}" + r)
  {
    var q := "%" + name + "{" + fmt + "}" + r;
    assert s + "%" + name + "{" + fmt + "}" + r == s + q;
    PlainPends(s, q);
    LettersAndFormat(name, fmt, r);
    var t := Directive(name, fmt);
    assert Tokens(q, s) == Flush(s) + [t] + Tokens(r, "");
    BuildThree(s, t, Tokens(r, ""));
    MakesError(s + q, t);
  }

  lemma LettersAndFormat(name: string, fmt: string, r: string)
    requires name != "" && Letters(name) && fmt != "" && forall k :: 1 <= k < |fmt| ==> fmt[k] != '}'
    ensures var q := "%" + name + "{" + fmt + "}" + r;
            MatchDirective(q) == Found(name, fmt, |name| + |fmt| + 3) && q[|name| + |fmt| + 3..] == r && q[1] != '%'
  {
    var n := |name| + 1;
    var q := "%" + name + "{" + fmt + "}" + r;
    forall k | 1 <= k < n ensures IsAlpha(q[k]) { assert q[k] == name[k - 1]; }
    assert q[n] == '{' && q[n + 1 + |fmt|] == '}' && q[1] == name[0];
    LetterEndIs(q, 1, n);
    forall k | n + 2 <= k < n + 1 + |fmt| ensures q[k] != '}' { assert q[k] == fmt[k - n - 1]; }
    CloseAtIs(q, n + 2, n + 1 + |fmt|);
    assert q[1..n] == name && q[n + 1..n + 1 + |fmt|] == fmt && q[n + 2 + |fmt|..] == r;
  }

  lemma BuildThree(s: string, t: Token, rest: seq<Token>)
    ensures Build(Flush(s) + [t] + rest) == FlushItems(s) + [ItemOf(t)] + Build(rest)
  {
    BuildConcat(Flush(s) + [t], rest);
    BuildConcat(Flush(s), [t]);
  }

  lemma MakesError(p: string, t: Token)
    requires t in Tokens(p, "") && !KnownToken(t)
    ensures IsError(p)
  {
  }

  lemma LettersMatch(name: string, r: string)
    requires name != "" && Letters(name) && (r != "" ==> !IsAlpha(r[0]) && r[0] != '{')
    ensures var q := "%" + name + r;
            MatchDirective(q) == Found(name, "", |name| + 1) && q[|name| + 1..] == r && q[1] != '%'
  {
    var q := "%" + name + r;
    forall k | 1 <= k < |name| + 1 ensures IsAlpha(q[k]) { assert q[k] == name[k - 1]; }
    assert r != "" ==> q[|name| + 1] == r[0];
    LetterEndIs(q, 1, |name| + 1);
    assert q[1..|name| + 1] == name && q[|name| + 1..] == r && q[1] == name[0];
  }

  // ---------- The double percent sign ----------

  /** No accepted pattern ends in a percent sign, so `%%` alone is an error. */
  lemma {:induction false} NeverEndsInPercent(p: string)
    requires Accepted(p) && p != ""
    ensures p[|p| - 1] != '%'
    decreases |p|
  {
    if PlainChar(p) && Accepted(p[1..]) {
      if p[1..] != "" { NeverEndsInPercent(p[1..]); }
    } else if DoublePercent(p) && Accepted(p[1..]) {
      NeverEndsInPercent(p[1..]);
    } else if Unbraced(p) && Accepted(p[2..]) {
      if p[2..] != "" { NeverEndsInPercent(p[2..]); }
    } else {
      var c: nat :| Braced(p, c) && Accepted(p[c + 1..]);
      if p[c + 1..] != "" { NeverEndsInPercent(p[c + 1..]); }
    }
  }

  /**
   The documentation says that `%%` outputs one `%`; then `%%q` would compile to that text joined with
   the compilation of `q`. It never does: the second `%` is read again as the start of a directive.
   */
  lemma DoublePercentIsNotOne(q: string)
    requires !IsError(q)
    ensures IsError("%%" + q) || Items("%%" + q) != Join([Literal("%")], Items(q))
  {
    PatternRoundTrip(q);
    JoinPrint([Literal("%")], Items(q));
    PrintCons(Literal("%"), []);
    if !IsError("%%" + q) { PatternRoundTrip("%%" + q); }
    assert |Print(Join([Literal("%")], Items(q)))| == |q| + 1;
  }

  lemma DoublePercentAccepted(q: string)
    ensures !IsError("%%" + q) <==> !IsError("%" + q)
  {
    var p := "%%" + q;
    assert p[1..] == "%" + q && p[0] == '%' && p[1] == '%' && [p[1]] == "%";
    TokensChar(p, "");
    KnownIffAccepted("%" + q, "%");
    KnownIffAccepted(p, "");
    ExactLanguage(p);
    ExactLanguage("%" + q);
  }

  /** What it does instead: the first sign is text and the second is read as if it came first. */
  lemma DoublePercentMeaning(q: string)
    requires !IsError("%" + q)
    ensures Items("%%" + q) == Join([Literal("%")], Items("%" + q))
  {
    var xs := Items("%" + q);
    PatternRoundTrip("%" + q);
    CompilationCanonical("%" + q);
    PercentCanonical(xs);
    JoinPrint([Literal("%")], xs);
    PrintCons(Literal("%"), []);
    ListRoundTrip(Join([Literal("%")], xs));
    assert Print(Join([Literal("%")], xs)) == "%%" + q;
  }

  lemma PercentCanonical(xs: seq<Item>)
    requires Canonical(xs) && xs != [] && PrintItem(xs[0])[0] == '%'
    ensures Canonical(Join([Literal("%")], xs))
  {
    CanonicalTail(xs);
    if xs[0].Literal? {
      var y := Literal("%" + xs[0].s);
      forall k: nat | k < |y.s| - 1 ensures Doubled(y.s, k) {
        assert k > 0 ==> Doubled(xs[0].s, k - 1);
      }
      CanonicalCons(y, xs[1..]);
    } else {
      CanonicalCons(Literal("%"), xs);
    }
  }
}
