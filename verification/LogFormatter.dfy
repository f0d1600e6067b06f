/** `LogFormatter` as it is programmed: nested loops over one index into the pattern, with rewinds. */
module LogFormatterObject {
  import opened Common
  import opened LogPattern

  lemma {:induction false} FormatSnoc(xs: seq<Item>, x: Item, render: (char, string) -> string)
    ensures Format(xs + [x], render) ==
            Format(xs, render) + FormatItem(x, render)
  {
    if xs == [] {
      assert xs + [x] == [x];
    } else {
      assert (xs + [x])[1..] == xs[1..] + [x];
      FormatSnoc(xs[1..], x, render);
    }
  }

  /** Before index `i` everything is read: `vec` is emitted and `nstr` pending. */
  predicate ReadTo(p: string, i: nat, vec: seq<Token>, nstr: string) {
    i <= |p| && vec + Tokens(p[i..], nstr) == Tokens(p, "")
  }

  lemma ReadChar(p: string, i: nat, vec: seq<Token>, nstr: string)
    requires ReadTo(p, i, vec, nstr) && i < |p| && (p[i] == '%' ==> i + 1 < |p| && p[i + 1] == '%')
    ensures ReadTo(p, i + 1, vec, nstr + [p[i]])
  {
    assert p[i..][1..] == p[i + 1..];
    TokensChar(p[i..], nstr);
  }

  lemma ReadDirective(p: string, i: nat, vec: seq<Token>, nstr: string, name: string, fmt: string, j: nat)
    requires ReadTo(p, i, vec, nstr) && i < j <= |p| && p[i] == '%' && !(i + 1 < |p| && p[i + 1] == '%')
    requires MatchDirective(p[i..]) == Found(name, fmt, j - i)
    ensures ReadTo(p, j, vec + Flush(nstr) + [Directive(name, fmt)], "")
  {
    assert p[i..][j - i..] == p[j..];
    Regroup(vec, Flush(nstr) + [Directive(name, fmt)], Tokens(p[j..], ""));
  }

  lemma ReadMiss(p: string, i: nat, vec: seq<Token>, nstr: string)
    requires ReadTo(p, i, vec, nstr) && i < |p| && p[i] == '%' && !(i + 1 < |p| && p[i + 1] == '%')
    requires MatchDirective(p[i..]) == NoMatch
    ensures ReadTo(p, i + 1, vec + [PATTERN_ERROR], nstr)
  {
    assert p[i..][1..] == p[i + 1..];
    Regroup(vec, [PATTERN_ERROR], Tokens(p[i + 1..], nstr));
  }

  lemma WithoutBrace(q: string, e: nat)
    requires q != "" && q[0] == '%' && e == LetterEnd(q, 1) && (e < |q| ==> q[e] != '{')
    ensures MatchDirective(q) == if e == 1 then NoMatch else Found(q[1..e], "", e)
  {
  }

  lemma WithBrace(q: string, e: nat)
    requires q != "" && q[0] == '%' && e == LetterEnd(q, 1) && e < |q| && q[e] == '{'
    ensures MatchDirective(q) ==
            if e + 1 == |q| || CloseAt(q, e + 2) == |q| then NoMatch
            else Found(q[1..e], q[e + 1..CloseAt(q, e + 2)], CloseAt(q, e + 2) + 1)
  {
  }

  class LogFormatter {
    const pattern: string
    var items: seq<Item>
    var error: bool

    constructor (pattern: string)
      ensures this.pattern == pattern
      ensures items == Items(pattern) && (error <==> IsError(pattern))
    {
      this.pattern := pattern;
      items, error := [], false;
      new;
      Init();
    }

    method Init()
      requires items == [] && !error
      modifies this
      ensures items == Items(pattern) && (error <==> IsError(pattern))
    {
      var vec := Tokenize();
      BuildItems(vec);
    }

    /** The first phase: literal text and directives, and an error token for each bad percent sign. */
    method Tokenize() returns (vec: seq<Token>)
      requires !error
      modifies this`error
      ensures vec == Tokens(pattern, "") && (error ==> PATTERN_ERROR in vec)
    {
      vec := [];
      var nstr := "";
      var i := 0;
      while i < |pattern|
        invariant ReadTo(pattern, i, vec, nstr)
        invariant error ==> PATTERN_ERROR in vec
      {
        if pattern[i] != '%' {
          ReadChar(pattern, i, vec, nstr);
          nstr := nstr + [pattern[i]];
          i := i + 1;
          continue;
        }
        if i + 1 < |pattern| && pattern[i + 1] == '%' {
          ReadChar(pattern, i, vec, nstr);
          nstr := nstr + ['%'];
          i := i + 1;
          continue;
        }
        i, vec, nstr := OneDirective(i, vec, nstr);
        i := i + 1;
      }
      if nstr != "" {
        vec := vec + [Text(nstr)];
      }
    }

    /** The rest of the loop body: emit a directive, or an error token; `last` is the index read last. */
    method OneDirective(i: nat, before: seq<Token>, pending: string) returns (last: nat, vec: seq<Token>, nstr: string)
      requires ReadTo(pattern, i, before, pending) && i < |pattern|
      requires pattern[i] == '%' && !(i + 1 < |pattern| && pattern[i + 1] == '%')
      modifies this`error
      ensures i <= last && ReadTo(pattern, last + 1, vec, nstr)
      ensures error ==> old(error) || PATTERN_ERROR in vec
      ensures PATTERN_ERROR in before ==> PATTERN_ERROR in vec
    {
      var status, j, name, fmt := ScanDirective(i);
      vec, nstr := before, pending;
      if status == 1 || status == 4 {
        ReadDirective(pattern, i, vec, nstr, name, fmt, j);
        if nstr != "" {
          vec := vec + [Text(nstr)];
          nstr := "";
        }
        assert vec == before + Flush(pending);
        vec := vec + [Directive(name, fmt)];
        last := j - 1;
      } else {
        ReadMiss(pattern, i, vec, nstr);
        vec := vec + [Directive("<<pattern_error>>", fmt)];
        error := true;
        last := i;
      }
    }

    /** The inner loop: status 0 nothing, 1 letters, 2 brace, 3 in the format, 4 closed. */
    method ScanDirective(i: nat) returns (status: int, j: nat, name: string, fmt: string)
      requires i < |pattern| && pattern[i] == '%'
      ensures i < j <= |pattern|
      ensures MatchDirective(pattern[i..]) ==
              if status == 1 || status == 4 then Found(name, fmt, j - i) else NoMatch
      ensures status != 1 && status != 4 ==> fmt == ""
    {
      ghost var q := pattern[i..];
      ghost var e := LetterEnd(q, 1);
      j := i + 1;
      status := 0;
      var fmtBegin := 0;
      name, fmt := "", "";
      var breakWhile := false;
      while j < |pattern|
        invariant i < j <= |pattern| && !breakWhile && fmt == ""
        invariant status == 0 || status == 1 || status == 2 || status == 3
        invariant status == 0 ==> j == i + 1
        invariant status == 1 ==> j > i + 1 && e >= j - i && (j == |pattern| ==> name == q[1..])
        invariant status <= 1 ==> e == LetterEnd(q, j - i)
        invariant status >= 2 ==> e < |q| && q[e] == '{' && name == q[1..e]
        invariant status == 2 ==> j == i + e + 1
        invariant status == 3 ==> j >= i + e + 2 && fmtBegin == i + e + 1 && CloseAt(q, e + 2) == CloseAt(q, j - i)
      {
        if status == 0 || status == 1 {
          if IsAlpha(pattern[j]) {
            status := 1;
            if j + 1 == |pattern| {
              name := pattern[i + 1..j + 1];
            }
          } else if pattern[j] == '{' {
            status := 2;
            name := pattern[i + 1..j];
          } else {
            name := pattern[i + 1..j];
            breakWhile := true;
            assert name == q[1..e];
            WithoutBrace(q, e);
            j := j - 1;
          }
        } else if status == 2 {
          fmtBegin := j;
          status := 3;
        } else if status == 3 {
          if pattern[j] == '}' {
            status := 4;
            fmt := pattern[fmtBegin..j];
            assert CloseAt(q, e + 2) == j - i && fmt == q[e + 1..j - i];
            WithBrace(q, e);
            breakWhile := true;
          }
        }
        j := j + 1;
        if breakWhile {
          return;
        }
      }
      if status <= 1 {
        assert e == |q| && q[1..e] == q[1..];
        WithoutBrace(q, e);
      } else {
        WithBrace(q, e);
      }
    }

    /** The second phase: look every token up in the table. */
    method BuildItems(vec: seq<Token>)
      requires items == [] && (error ==> PATTERN_ERROR in vec)
      modifies this
      ensures items == Build(vec) && (error <==> exists t :: t in vec && !KnownToken(t))
    {
      var n := 0;
      assert !KnownToken(PATTERN_ERROR);
      while n < |vec|
        invariant 0 <= n <= |vec| && items == Build(vec[..n])
        invariant error ==> exists t :: t in vec && !KnownToken(t)
        invariant !error ==> forall k :: 0 <= k < n ==> KnownToken(vec[k])
      {
        var t := vec[n];
        assert t in vec;
        match t {
          case Text(s) => items := items + [Literal(s)];
          case Directive(name, fmt) =>
            if !Known(name) {
              items := items + [Literal("<<error_format %" + name + ">>")];
              error := true;
            } else {
              items := items + [Field(name[0], fmt)];
            }
        }
        assert vec[..n + 1] == vec[..n] + [t];
        n := n + 1;
      }
      assert vec[..n] == vec;
    }

    method FormatEvent(render: (char, string) -> string) returns (ss: string)
      ensures ss == Format(items, render)
    {
      ss := "";
      var n := 0;
      while n < |items|
        invariant 0 <= n <= |items| && ss == Format(items[..n], render)
      {
        FormatSnoc(items[..n], items[n], render);
        assert items[..n + 1] == items[..n] + [items[n]];
        match items[n] {
          case Literal(s) => ss := ss + s;
          case Field(key, fmt) => ss := ss + render(key, fmt);
        }
        n := n + 1;
      }
      assert items[..n] == items;
    }
  }
}
