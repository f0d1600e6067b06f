/** Loggers, appenders and the formatters appenders inherit (mocker/log.cpp). */
module LoggerObject {
  import opened LogPattern
  import opened LogFormatterObject
  import LogPatternTheorems

  class LogAppender {
    const level: int
    var hasFormatter: bool
    var formatter: LogFormatter?

    constructor (level: int)
      ensures this.level == level && !hasFormatter && formatter == null
    {
      this.level := level;
      hasFormatter, formatter := false, null;
    }

    method SetFormatter(val: LogFormatter?)
      modifies this
      ensures formatter == val && (hasFormatter <==> val != null)
    {
      formatter := val;
      if formatter != null {
        hasFormatter := true;
      } else {
        hasFormatter := false;
      }
    }

    /** Never attached: a formatter can only be its own. */
    predicate Untouched()
      reads this
    {
      hasFormatter <==> formatter != null
    }

    /** It has a formatter, and one that is not its own is `f`. */
    predicate Follows(f: LogFormatter?)
      reads this
    {
      formatter != null && (!hasFormatter ==> formatter == f)
    }
  }

  function FormattersOf(apps: seq<LogAppender>): set<object>
    reads apps
  {
    set a | a in apps && a.formatter != null :: a.formatter
  }

  predicate AllFormatted(apps: seq<LogAppender>)
    reads apps
  {
    forall a :: a in apps ==> a.formatter != null
  }

  /** What an appender does with an event: its level gate and its layout. */
  datatype Layout = Layout(level: int, items: seq<Item>)

  function Layouts(apps: seq<LogAppender>): (r: seq<Layout>)
    requires AllFormatted(apps)
    reads apps, FormattersOf(apps)
    ensures |r| == |apps|
    ensures forall k :: 0 <= k < |apps| ==> r[k] == Layout(apps[k].level, apps[k].formatter.items)
  {
    if apps == [] then []
    else
      assert forall a :: a in apps[1..] ==> a in apps;
      [Layout(apps[0].level, apps[0].formatter.items)] + Layouts(apps[1..])
  }

  /** The lines written for one event, in order. */
  function Lines(ys: seq<Layout>, at: int, render: (char, string) -> string): seq<string> {
    if ys == [] then []
    else (if at >= ys[0].level then [Format(ys[0].items, render)] else []) + Lines(ys[1..], at, render)
  }

  lemma LinesStep(out: seq<string>, ys: seq<Layout>, n: nat, at: int, render: (char, string) -> string)
    requires n < |ys|
    ensures var more := if at >= ys[n].level then [Format(ys[n].items, render)] else [];
            out + Lines(ys[n..], at, render) == out + more + Lines(ys[n + 1..], at, render)
  {
    assert ys[n..][1..] == ys[n + 1..] && ys[n..][0] == ys[n];
  }

  /** Something is written exactly if some layout lets the event pass. */
  lemma {:induction false} NoLine(ys: seq<Layout>, at: int, render: (char, string) -> string)
    ensures Lines(ys, at, render) == [] <==> forall k :: 0 <= k < |ys| ==> at < ys[k].level
  {
    if ys != [] { NoLine(ys[1..], at, render); }
  }

  lemma SomeLine(apps: seq<LogAppender>, at: int, render: (char, string) -> string)
    requires AllFormatted(apps)
    ensures Lines(Layouts(apps), at, render) != [] <==> exists a :: a in apps && at >= a.level
  {
    var ys := Layouts(apps);
    NoLine(ys, at, render);
    if Lines(ys, at, render) != [] {
      var k :| 0 <= k < |ys| && at >= ys[k].level;
      assert apps[k] in apps;
    }
  }

  lemma {:induction false} LinesConcat(xs: seq<Layout>, ys: seq<Layout>, at: int, render: (char, string) -> string)
    ensures Lines(xs + ys, at, render) == Lines(xs, at, render) + Lines(ys, at, render)
  {
    if xs == [] {
      assert xs + ys == ys;
    } else {
      assert (xs + ys)[1..] == xs[1..] + ys;
      LinesConcat(xs[1..], ys, at, render);
    }
  }

  /** A layout that lets the event pass writes its line behind those of the layouts before it, and no other does. */
  lemma LineAt(ys: seq<Layout>, k: nat, at: int, render: (char, string) -> string)
    requires k < |ys|
    ensures at >= ys[k].level ==>
              Lines(ys[..k + 1], at, render) == Lines(ys[..k], at, render) + [Format(ys[k].items, render)]
    ensures at < ys[k].level ==> Lines(ys[..k + 1], at, render) == Lines(ys[..k], at, render)
    ensures Lines(ys[..k], at, render) <= Lines(ys, at, render)
  {
    assert ys[..k + 1] == ys[..k] + [ys[k]] && ys == ys[..k] + ys[k..];
    LinesConcat(ys[..k], [ys[k]], at, render);
    LinesConcat(ys[..k], ys[k..], at, render);
    assert Lines([], at, render) == [];
  }

  /** The list without the first occurrence of `x`. */
  function Without<T(==)>(xs: seq<T>, x: T): seq<T> {
    if xs == [] then []
    else if xs[0] == x then xs[1..]
    else [xs[0]] + Without(xs[1..], x)
  }

  /** One occurrence goes and everything else stays. */
  lemma {:induction false} WithoutRemovesOne<T>(xs: seq<T>, x: T)
    ensures multiset(Without(xs, x)) == multiset(xs) - multiset{x}
  {
    if xs != [] {
      var h, rest := xs[0], xs[1..];
      assert xs == [h] + rest;
      assert multiset(xs) == multiset{h} + multiset(rest);
      if h != x {
        WithoutRemovesOne(rest, x);
        assert multiset(Without(xs, x)) == multiset{h} + multiset(Without(rest, x));
      }
    }
  }

  lemma {:induction false} WithoutAbsent<T>(xs: seq<T>, x: T)
    requires x !in xs
    ensures Without(xs, x) == xs
  {
    if xs != [] {
      WithoutAbsent(xs[1..], x);
    }
  }

  lemma {:induction false} WithoutIn<T>(xs: seq<T>, x: T, y: T)
    requires y in Without(xs, x)
    ensures y in xs
  {
    if xs[0] != x && y != xs[0] {
      WithoutIn(xs[1..], x, y);
    }
  }

  lemma {:induction false} WithoutAt<T>(before: seq<T>, x: T, after: seq<T>)
    requires x !in before
    ensures Without(before + [x] + after, x) == before + after
  {
    var all := before + [x] + after;
    if before == [] {
      assert all == [x] + after;
    } else {
      assert all == [before[0]] + (before[1..] + [x] + after);
      WithoutAt(before[1..], x, after);
      assert before[0] in before;
      assert before + after == [before[0]] + (before[1..] + after);
    }
  }

  class Logger {
    const name: string
    const root: Logger?
    var level: int
    var appenders: seq<LogAppender>
    var formatter: LogFormatter?

    constructor (name: string, level: int, root: Logger?)
      ensures this.name == name && this.root == root && this.level == level
      ensures appenders == [] && fresh(formatter) && Consistent() && !formatter.error
    {
      LogPatternTheorems.DefaultPattern();
      this.name, this.root, this.level, appenders := name, root, level, [];
      formatter := new LogFormatter("%d{%Y-%m-%d %H:%M:%S}%T%t%T%N%T%F%T[%p]%T[%c]%T%f:%l%T%m%n");
    }

    /** Every attached appender has a formatter: its own, or the one this logger has now. */
    ghost predicate Consistent()
      reads this, appenders
    {
      formatter != null && forall a :: a in appenders ==> a.Follows(formatter)
    }

    /** Consistency survives exactly if the appender does not bring another logger's formatter along. */
    method AddAppender(a: LogAppender)
      requires Consistent()
      modifies this`appenders, a`formatter
      ensures appenders == old(appenders) + [a]
      ensures a.formatter == if old(a.formatter) == null then formatter else old(a.formatter)
      ensures Consistent() <==> old(a.hasFormatter || a.formatter == null || a.formatter == formatter)
    {
      if a.formatter == null {
        a.formatter := formatter;
      }
      appenders := appenders + [a];
      assert a in appenders;
    }

    method DelAppender(a: LogAppender)
      modifies this`appenders
      ensures appenders == Without(old(appenders), a)
    {
      var n := 0;
      while n < |appenders|
        invariant 0 <= n <= |appenders| && appenders == old(appenders) && a !in appenders[..n]
      {
        if appenders[n] == a {
          WithoutAt(appenders[..n], a, appenders[n + 1..]);
          assert appenders == appenders[..n] + [a] + appenders[n + 1..];
          appenders := appenders[..n] + appenders[n + 1..];
          return;
        }
        n := n + 1;
      }
      assert appenders[..n] == appenders;
      WithoutAbsent(appenders, a);
    }

    method ClearAppender()
      modifies this`appenders
      ensures appenders == []
    {
      appenders := [];
    }

    /** Whatever the appenders followed before, afterwards they follow `val`. */
    method SetFormatter(val: LogFormatter?)
      modifies this`formatter, appenders`formatter
      ensures formatter == val
      ensures forall a :: a in appenders ==> a.formatter == if a.hasFormatter then old(a.formatter) else val
      ensures Consistent() <==>
              val != null && forall a :: a in appenders && a.hasFormatter ==> old(a.formatter) != null
    {
      formatter := val;
      var n := 0;
      while n < |appenders|
        invariant 0 <= n <= |appenders| && formatter == val
        invariant forall a :: a in appenders[..n] ==> a.formatter == if a.hasFormatter then old(a.formatter) else val
        invariant forall a :: a in appenders && a !in appenders[..n] ==> a.formatter == old(a.formatter)
      {
        var i := appenders[n];
        if !i.hasFormatter {
          i.formatter := formatter;
        }
        assert appenders[..n + 1] == appenders[..n] + [i];
        n := n + 1;
      }
      assert appenders[..n] == appenders;
    }

    /** A pattern in error changes nothing. */
    method SetPattern(val: string)
      requires Consistent()
      modifies this`formatter, appenders`formatter
      ensures Consistent()
      ensures IsError(val) ==> formatter == old(formatter)
      ensures !IsError(val) ==>
                formatter != null && fresh(formatter) && formatter.pattern == val && formatter.items == Items(val)
      ensures forall a :: a in appenders ==>
                            a.formatter == if a.hasFormatter then old(a.formatter) else formatter
    {
      var f := new LogFormatter(val);
      if f.error {
        return;
      }
      SetFormatter(f);
    }

    /**
     At or above its level a logger writes one line through each of its appenders that lets the event pass. A
     logger without appenders leaves it to the root, which has a level of its own.
     */
    method Log(at: int, render: (char, string) -> string) returns (out: seq<string>)
      requires Consistent() && (root != null ==> root.Consistent() && root.root == null)
      ensures at >= level && appenders != [] ==>
                AllFormatted(appenders) && out == Lines(Layouts(appenders), at, render)
      ensures at >= level && appenders == [] && root != null && at >= root.level ==>
                AllFormatted(root.appenders) && out == Lines(Layouts(root.appenders), at, render)
      ensures out != [] <==>
              at >= level &&
              if appenders != [] then exists a :: a in appenders && at >= a.level
              else root != null && at >= root.level && exists a :: a in root.appenders && at >= a.level
      decreases root != null
    {
      out := [];
      if at >= level {
        if appenders != [] {
          ghost var ys := Layouts(appenders);
          var n := 0;
          while n < |appenders|
            invariant 0 <= n <= |appenders| == |ys|
            invariant forall k :: 0 <= k < |ys| ==>
                                    appenders[k].formatter != null &&
                                    ys[k] == Layout(appenders[k].level, appenders[k].formatter.items)
            invariant out + Lines(ys[n..], at, render) == Lines(ys, at, render)
          {
            var i := appenders[n];
            LinesStep(out, ys, n, at, render);
            if at >= i.level {
              var line := i.formatter.FormatEvent(render);
              out := out + [line];
            }
            n := n + 1;
          }
          assert Layouts(appenders) == ys;
          SomeLine(appenders, at, render);
        } else if root != null {
          out := root.Log(at, render);
        }
      }
    }
  }

  /** The line of an appender without a formatter of its own is laid out by its logger's formatter. */
  lemma InheritedLayout(l: Logger, k: nat, at: int, render: (char, string) -> string)
    requires l.Consistent() && k < |l.appenders| && at >= l.appenders[k].level && !l.appenders[k].hasFormatter
    ensures AllFormatted(l.appenders)
    ensures Format(l.formatter.items, render) in Lines(Layouts(l.appenders), at, render)
  {
    assert l.appenders[k] in l.appenders;
    LineOf(Layouts(l.appenders), k, at, render);
  }

  lemma {:induction false} LineOf(ys: seq<Layout>, k: nat, at: int, render: (char, string) -> string)
    requires k < |ys| && at >= ys[k].level
    ensures Format(ys[k].items, render) in Lines(ys, at, render)
  {
    if k > 0 {
      LineOf(ys[1..], k - 1, at, render);
    }
  }

  // ---------- The manager and runs over all its loggers ----------

  /** What is done to the logger of a name, which `getLogger` makes if there is none, or to an appender. */
  datatype Op =
    | Get(name: string)
    | Add(name: string, a: LogAppender)
    | Del(name: string, a: LogAppender)
    | Clear(name: string)
    | SetLogger(name: string, f: LogFormatter)
    | SetText(name: string, text: string)
    | SetAppender(a: LogAppender, f: LogFormatter)

  /** A logger's appenders after an operation on it. */
  function AppendersAfter(apps: seq<LogAppender>, op: Op): seq<LogAppender> {
    match op
    case Add(_, a) => apps + [a]
    case Del(_, a) => Without(apps, a)
    case Clear(_) => []
    case _ => apps
  }

  /** The appenders of the logger with that name after an operation on whatever logger. */
  function AppendersThen(apps: seq<LogAppender>, name: string, op: Op): seq<LogAppender> {
    if !op.SetAppender? && op.name == name then AppendersAfter(apps, op) else apps
  }

  /** The same for a sequence of operations. */
  function AppendersRun(apps: seq<LogAppender>, name: string, ops: seq<Op>): seq<LogAppender>
    decreases |ops|
  {
    if ops == [] then apps else AppendersRun(AppendersThen(apps, name, ops[0]), name, ops[1..])
  }

  lemma AppendersNext(apps: seq<LogAppender>, name: string, ops: seq<Op>, n: nat)
    requires n < |ops|
    ensures AppendersRun(apps, name, ops[n..]) == AppendersRun(AppendersThen(apps, name, ops[n]), name, ops[n + 1..])
  {
    assert ops[n..][1..] == ops[n + 1..];
  }

  function AddedBy(ops: seq<Op>): set<LogAppender> {
    set op | op in ops && op.Add? :: op.a
  }

  /** No appender is attached a second time. */
  predicate AttachedOnce(ops: seq<Op>) {
    forall i, j :: 0 <= i < j < |ops| && ops[i].Add? && ops[j].Add? ==> ops[i].a != ops[j].a
  }

  /** The appenders named in the operations. */
  function Touched(ops: seq<Op>): set<LogAppender> {
    set op | op in ops && (op.Add? || op.SetAppender?) :: op.a
  }

  /** Nothing is lost from the map. */
  predicate Extends(m: map<string, Logger>, before: map<string, Logger>) {
    forall n :: n in before ==> n in m && m[n] == before[n]
  }

  lemma AddedNext(ops: seq<Op>, n: nat)
    requires n < |ops| && AttachedOnce(ops)
    ensures var now := if ops[n].Add? then {ops[n].a} else {};
            && ops[n] in ops && AddedBy(ops[n..]) == now + AddedBy(ops[n + 1..])
            && now !! AddedBy(ops[n + 1..])
  {
    assert ops[n..] == [ops[n]] + ops[n + 1..];
    forall op | op in ops[n + 1..] && op.Add? && ops[n].Add? ensures op.a != ops[n].a {
      var k :| 0 <= k < |ops[n + 1..]| && ops[n + 1..][k] == op;
      assert ops[n + 1 + k] == op;
    }
  }

  class LogManager {
    const root: Logger
    var loggers: map<string, Logger>
    ghost var seen: set<LogAppender>

    function Attached(): (r: set<LogAppender>)
      reads this, loggers.Values
      ensures forall l, a :: l in loggers.Values && a in l.appenders ==> a in r
    {
      set l, a | l in loggers.Values && a in l.appenders :: a
    }

    /** The appenders of the logger with that name, which has none before it is made. */
    function AppendersOf(name: string): seq<LogAppender>
      reads this, loggers.Values
    {
      if name in loggers then loggers[name].appenders else []
    }

    ghost predicate Valid()
      reads this, loggers.Values, Attached()
    {
      && root.name in loggers && loggers[root.name] == root && root.root == null
      && (forall n :: n in loggers ==> loggers[n].name == n)
      && (forall l :: l in loggers.Values && l != root ==> l.root == root)
      && (forall l :: l in loggers.Values ==> l.Consistent())
      && (forall l, a :: l in loggers.Values && a in l.appenders ==> a in seen)
      && (forall l, m, a :: l in loggers.Values && m in loggers.Values && a in l.appenders && a in m.appenders ==>
                              l == m)
    }

    constructor (rootLevel: int)
      ensures Valid() && loggers == map[root.name := root] && root.name == "root"
      ensures |root.appenders| == 1 && root.appenders[0].level == rootLevel && seen == {root.appenders[0]}
      ensures !root.appenders[0].hasFormatter && root.appenders[0].formatter == root.formatter
    {
      var r := new Logger("root", rootLevel, null);
      var a := new LogAppender(r.level);
      r.AddAppender(a);
      root := r;
      loggers := map[r.name := r];
      seen := {a};
    }

    /** The one logger of that name; a new one logs through the root until it has appenders. */
    method GetLogger(name: string, level: int) returns (l: Logger)
      requires Valid()
      modifies this`loggers
      ensures Valid() && name in loggers && loggers[name] == l && l.name == name && seen == old(seen)
      ensures if name in old(loggers) then loggers == old(loggers)
              else fresh(l) && loggers == old(loggers)[name := l] && l.appenders == []
    {
      if name in loggers {
        return loggers[name];
      }
      l := new Logger(name, level, root);
      loggers := loggers[name := l];
      assert forall m :: m in loggers.Values ==> m == l || m in old(loggers.Values);
    }

    /** The appender of an `Add` was never attached and has no formatter but its own. */
    ghost predicate Ready(op: Op)
      reads this, if op.Add? then {op.a} else {}
    {
      op.Add? ==> op.a !in seen && op.a.Untouched()
    }

    method Attach(l: Logger, a: LogAppender)
      requires Valid() && l in loggers.Values && a !in seen && a.Untouched()
      modifies this`seen, l`appenders, a`formatter
      ensures Valid() && seen == old(seen) + {a} && l.appenders == old(l.appenders) + [a]
      ensures a.formatter == if a.hasFormatter then old(a.formatter) else l.formatter
    {
      l.AddAppender(a);
      seen := seen + {a};
    }

    method Detach(l: Logger, a: LogAppender)
      requires Valid() && l in loggers.Values
      modifies l`appenders
      ensures Valid() && l.appenders == Without(old(l.appenders), a)
      ensures forall x :: x in l.appenders ==> x in old(l.appenders)
    {
      l.DelAppender(a);
      forall x | x in l.appenders ensures x in old(l.appenders) {
        WithoutIn(old(l.appenders), a, x);
      }
    }

    method Clear(l: Logger)
      requires Valid() && l in loggers.Values
      modifies l`appenders
      ensures Valid() && l.appenders == []
    {
      l.ClearAppender();
    }

    /** `waiting` are appenders still to be attached by later operations. */
    method StepOn(l: Logger, op: Op, ghost waiting: set<LogAppender>)
      requires Valid() && l in loggers.Values && !op.SetAppender? && Ready(op)
      requires forall a :: a in waiting ==> a !in seen && a.Untouched() && !(op.Add? && a == op.a)
      modifies this`seen, l, l.appenders, if op.Add? then {op.a} else {}
      ensures Valid() && seen == old(seen) + (if op.Add? then {op.a} else {})
      ensures forall a :: a in waiting ==> a !in seen && a.Untouched()
      ensures Attached() <= old(Attached()) + (if op.Add? then {op.a} else {})
      ensures l.appenders == AppendersAfter(old(l.appenders), op)
      ensures match op
              case SetLogger(_, f) => l.formatter == f
              case SetText(_, text) =>
                if IsError(text) then l.formatter == old(l.formatter)
                else l.formatter != null && l.formatter.items == Items(text)
              case _ => l.formatter == old(l.formatter)
    {
      match op {
        case Get(_) =>
        case Add(_, a) => Attach(l, a);
        case Del(_, a) => Detach(l, a);
        case Clear(_) => Clear(l);
        case SetLogger(_, f) => l.SetFormatter(f);
        case SetText(_, text) => l.SetPattern(text);
      }
    }

    method StepNamed(op: Op, ghost waiting: set<LogAppender>)
      requires Valid() && Ready(op) && !op.SetAppender?
      requires forall a :: a in waiting ==> a !in seen && a.Untouched() && !(op.Add? && a == op.a)
      modifies this`seen, this`loggers, loggers.Values, Attached(), if op.Add? then {op.a} else {}
      ensures Valid() && seen == old(seen) + (if op.Add? then {op.a} else {})
      ensures forall a :: a in waiting ==> a !in seen && a.Untouched()
      ensures Attached() <= old(Attached()) + (if op.Add? then {op.a} else {})
      ensures Extends(loggers, old(loggers))
      ensures forall l :: l in loggers.Values ==> l in old(loggers).Values || fresh(l)
      ensures forall name :: AppendersOf(name) == AppendersThen(old(AppendersOf(name)), name, op)
    {
      var l := GetLogger(op.name, 1);
      StepOn(l, op, waiting);
    }

    method Step(op: Op, ghost waiting: set<LogAppender>)
      requires Valid() && Ready(op)
      requires forall a :: a in waiting ==> a !in seen && a.Untouched() && !(op.Add? && a == op.a)
      modifies this`seen, this`loggers, loggers.Values, Attached(), if op.Add? || op.SetAppender? then {op.a} else {}
      ensures Valid() && seen == old(seen) + (if op.Add? then {op.a} else {})
      ensures forall a :: a in waiting ==> a !in seen && a.Untouched()
      ensures Attached() <= old(Attached()) + (if op.Add? then {op.a} else {})
      ensures Extends(loggers, old(loggers))
      ensures forall l :: l in loggers.Values ==> l in old(loggers).Values || fresh(l)
      ensures forall name :: AppendersOf(name) == AppendersThen(old(AppendersOf(name)), name, op)
    {
      if op.SetAppender? {
        op.a.SetFormatter(op.f);
      } else {
        StepNamed(op, waiting);
      }
    }

    /** Operation `n` of the sequence; the appenders still to come stay untouched. */
    method StepAt(ops: seq<Op>, n: nat)
      requires Valid() && AttachedOnce(ops) && n < |ops|
      requires forall a :: a in AddedBy(ops[n..]) ==> a !in seen && a.Untouched()
      modifies this`seen, this`loggers, loggers.Values, Attached(),
               if ops[n].Add? || ops[n].SetAppender? then {ops[n].a} else {}
      ensures Valid() && seen + AddedBy(ops[n + 1..]) == old(seen) + AddedBy(ops[n..])
      ensures forall a :: a in AddedBy(ops[n + 1..]) ==> a !in seen && a.Untouched()
      ensures Attached() <= old(Attached()) + AddedBy(ops) && Extends(loggers, old(loggers))
      ensures forall l :: l in loggers.Values ==> l in old(loggers).Values || fresh(l)
      ensures forall name ::
                AppendersRun(AppendersOf(name), name, ops[n + 1..]) ==
                AppendersRun(old(AppendersOf(name)), name, ops[n..])
    {
      AddedNext(ops, n);
      forall name { AppendersNext(AppendersOf(name), name, ops, n); }
      Step(ops[n], AddedBy(ops[n + 1..]));
    }

    /**
     Any sequence of logger creations, attachments, detachments and formatter changes: as long as nobody
     attaches an appender twice, every attached appender keeps a formatter, and one without its own has
     the formatter its logger has at that moment. No logger is replaced.
     */
    method RunAll(ops: seq<Op>)
      requires Valid() && AttachedOnce(ops)
      requires forall k :: 0 <= k < |ops| ==> Ready(ops[k])
      modifies this`seen, this`loggers, loggers.Values, Attached(), Touched(ops)
      ensures Valid() && seen == old(seen) + AddedBy(ops)
      ensures Extends(loggers, old(loggers))
      ensures forall name :: AppendersOf(name) == AppendersRun(old(AppendersOf(name)), name, ops)
    {
      var n := 0;
      assert ops[0..] == ops;
      while n < |ops|
        invariant 0 <= n <= |ops| && Valid() && seen + AddedBy(ops[n..]) == old(seen) + AddedBy(ops)
        invariant Extends(loggers, old(loggers))
        invariant forall l :: l in loggers.Values ==> l in old(loggers).Values || fresh(l)
        invariant forall a :: a in AddedBy(ops[n..]) ==> a !in seen && a.Untouched()
        invariant Attached() <= old(Attached()) + AddedBy(ops)
        invariant forall name ::
                    AppendersRun(AppendersOf(name), name, ops[n..]) == AppendersRun(old(AppendersOf(name)), name, ops)
      {
        assert ops[n] in ops;
        StepAt(ops, n);
        n := n + 1;
      }
    }
  }
}
