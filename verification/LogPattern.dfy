/**
 The log-pattern language (mocker/log.cpp, `LogFormatter::init` and `format`): what the compiler does,
 as functions of the pattern, and the grammar of the patterns it accepts.
 */
module LogPattern {

  predicate IsAlpha(c: char) {
    'a' <= c <= 'z' || 'A' <= c <= 'Z'
  }

  /** The keys of `s_format_items`. */
  predicate Known(name: string) {
    |name| == 1 && name[0] in {'m', 'p', 'r', 'c', 't', 'N', 'n', 'd', 'f', 'l', 'T', 'F'}
  }

  /** The tuples of `vec`, of type 0 and 1. */
  datatype Token = Text(s: string) | Directive(name: string, fmt: string)

  /** The compiled items; `fmt` is empty for a directive without braces. */
  datatype Item = Literal(s: string) | Field(key: char, fmt: string)

  const PATTERN_ERROR := Directive("<<pattern_error>>", "")

  // ---------- One directive ----------

  /** First index from `j` on that is not a letter. */
  function LetterEnd(q: string, j: nat): (e: nat)
    requires j <= |q|
    ensures j <= e <= |q|
    ensures forall k :: j <= k < e ==> IsAlpha(q[k])
    ensures e < |q| ==> !IsAlpha(q[e])
    decreases |q| - j
  {
    if j == |q| || !IsAlpha(q[j]) then j else LetterEnd(q, j + 1)
  }

  /** First index from `j` on that is a closing brace, or the length. */
  function CloseAt(q: string, j: nat): (e: nat)
    requires j <= |q|
    ensures j <= e <= |q|
    ensures forall k :: j <= k < e ==> q[k] != '}'
    ensures e < |q| ==> q[e] == '}'
    decreases |q| - j
  {
    if j == |q| || q[j] == '}' then j else CloseAt(q, j + 1)
  }

  datatype Match = NoMatch | Found(name: string, fmt: string, next: nat)

  /** What the inner loop makes of a text that starts with `%`. */
  function MatchDirective(q: string): (m: Match)
    requires q != "" && q[0] == '%'
    ensures m.Found? ==> 0 < m.next <= |q|
  {
    var e := LetterEnd(q, 1);
    if e < |q| && q[e] == '{' then
      if e + 1 == |q| || CloseAt(q, e + 2) == |q| then NoMatch
      else Found(q[1..e], q[e + 1..CloseAt(q, e + 2)], CloseAt(q, e + 2) + 1)
    else if e == 1 then NoMatch
    else Found(q[1..e], "", e)
  }

  // ---------- The compiler ----------

  function Flush(pending: string): seq<Token> {
    if pending == "" then [] else [Text(pending)]
  }

  /** The tokens of the text `q` when the literal text `pending` has been read but not yet emitted. */
  function Tokens(q: string, pending: string): seq<Token>
    decreases |q|
  {
    if q == "" then Flush(pending)
    else if q[0] != '%' then Tokens(q[1..], pending + [q[0]])
    else if 1 < |q| && q[1] == '%' then Tokens(q[1..], pending + ['%'])
    else
      match MatchDirective(q)
      case Found(name, fmt, next) => Flush(pending) + [Directive(name, fmt)] + Tokens(q[next..], "")
      case NoMatch => [PATTERN_ERROR] + Tokens(q[1..], pending)
  }

  /** A character that only joins the pending text. */
  lemma TokensChar(q: string, pending: string)
    requires q != "" && (q[0] == '%' ==> 1 < |q| && q[1] == '%')
    ensures Tokens(q, pending) == Tokens(q[1..], pending + [q[0]])
  {
  }

  predicate KnownToken(t: Token) {
    t.Directive? ==> Known(t.name)
  }

  function ItemOf(t: Token): Item {
    match t
    case Text(s) => Literal(s)
    case Directive(name, fmt) =>
      if Known(name) then Field(name[0], fmt) else Literal("<<error_format %" + name + ">>")
  }

  function Build(ts: seq<Token>): (r: seq<Item>)
    ensures |r| == |ts| && forall k :: 0 <= k < |ts| ==> r[k] == ItemOf(ts[k])
  {
    seq(|ts|, k requires 0 <= k < |ts| => ItemOf(ts[k]))
  }

  function Items(p: string): seq<Item> {
    Build(Tokens(p, ""))
  }

  /** `m_error`. */
  predicate IsError(p: string) {
    exists t :: t in Tokens(p, "") && !KnownToken(t)
  }

  // ---------- The grammar ----------

  /** The position of the brace that closes the format opened at index 2. */
  predicate Closes(p: string, c: nat) {
    4 <= c < |p| && p[c] == '}' && forall k :: 4 <= k < c ==> p[k] != '}'
  }

  predicate PlainChar(p: string) {
    p != "" && p[0] != '%'
  }

  predicate DoublePercent(p: string) {
    |p| > 1 && p[0] == '%' && p[1] == '%'
  }

  predicate Unbraced(p: string) {
    |p| > 1 && p[0] == '%' && Known([p[1]]) && (|p| > 2 ==> !IsAlpha(p[2]) && p[2] != '{')
  }

  predicate Braced(p: string, c: nat) {
    |p| > 4 && p[0] == '%' && Known([p[1]]) && p[2] == '{' && Closes(p, c)
  }

  /** Plain characters, `%` before another `%`, `%K` not followed by a letter or brace, `%K{x...}`. */
  ghost predicate Accepted(p: string)
    decreases |p|
  {
    || p == ""
    || (PlainChar(p) && Accepted(p[1..]))
    || (DoublePercent(p) && Accepted(p[1..]))
    || (Unbraced(p) && Accepted(p[2..]))
    || (exists c: nat :: Braced(p, c) && Accepted(p[c + 1..]))
  }

  // ---------- Printing ----------

  function PrintItem(x: Item): string {
    match x
    case Literal(s) => s
    case Field(key, fmt) => if fmt == "" then ['%', key] else ['%', key, '{'] + fmt + ['}']
  }

  function Print(xs: seq<Item>): string {
    if xs == [] then "" else PrintItem(xs[0]) + Print(xs[1..])
  }

  /** Text the compiler can have produced: a `%` is followed by another one, or ends the text. */
  predicate GoodText(s: string) {
    s != "" && forall k: nat :: k < |s| - 1 ==> Doubled(s, k)
  }

  /** A percent sign at index `k` has another one behind it. */
  predicate Doubled(s: string, k: nat) {
    k < |s| && s[k] == '%' ==> k + 1 < |s| && s[k + 1] == '%'
  }

  predicate GoodItem(x: Item) {
    match x
    case Literal(s) => GoodText(s)
    case Field(key, fmt) => Known([key]) && forall k :: 1 <= k < |fmt| ==> fmt[k] != '}'
  }

  /** Two neighbours that the compiler would read back as two. */
  predicate Joint(x: Item, y: Item) {
    && (x.Literal? ==> y.Field?)
    && (x.Field? && x.fmt == "" && y.Literal? && y.s != "" ==> !IsAlpha(y.s[0]) && y.s[0] != '{')
  }

  predicate JointAt(xs: seq<Item>, k: nat)
    requires k < |xs| - 1
  {
    Joint(xs[k], xs[k + 1])
  }

  /** The item lists that are compilations. */
  predicate Canonical(xs: seq<Item>) {
    && (forall k :: 0 <= k < |xs| ==> GoodItem(xs[k]))
    && (forall k: nat :: k < |xs| - 1 ==> JointAt(xs, k))
    && (xs != [] && xs[|xs| - 1].Literal? && xs[|xs| - 1].s != "" ==>
          xs[|xs| - 1].s[|xs[|xs| - 1].s| - 1] != '%')
  }

  // ---------- Formatting ----------

  /** `LogFormatter::format`; how one field renders for the event at hand is a parameter. */
  function Format(xs: seq<Item>, render: (char, string) -> string): string {
    if xs == [] then "" else FormatItem(xs[0], render) + Format(xs[1..], render)
  }

  function FormatItem(x: Item, render: (char, string) -> string): string {
    match x
    case Literal(s) => s
    case Field(key, fmt) => render(key, fmt)
  }

  /** Two compiled lists side by side: literals that meet become one. */
  function Join(a: seq<Item>, b: seq<Item>): seq<Item> {
    if a == [] then b
    else if |a| == 1 && b != [] && a[0].Literal? && b[0].Literal? then [Literal(a[0].s + b[0].s)] + b[1..]
    else [a[0]] + Join(a[1..], b)
  }
}
