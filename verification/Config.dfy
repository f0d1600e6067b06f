/** The registry of configuration variables and loading a YAML tree into it (mocker/config.cpp, config.h). */
module ConfigRegistry {
  import opened Common
  import opened ConfigTree
  import opened ConfigVariable

  /** `Scalar()` of a scalar, else what streaming the node prints; the printer is a parameter. */
  function TextOf(node: Node, dump: Node -> string): string {
    if node.Scalar? then node.text else dump(node)
  }

  /** The texts of the listed nodes that address one variable, in order; the unnamed root is skipped. */
  function TextsFor(list: seq<(string, Node)>, name: string, dump: Node -> string): seq<string> {
    if list == [] then []
    else if list[0].0 != "" && Lower(list[0].0) == name then
      [TextOf(list[0].1, dump)] + TextsFor(list[1..], name, dump)
    else TextsFor(list[1..], name, dump)
  }

  /** `fromString` for one text after another. */
  function FromTexts<V(==)>(s: Var<V>, texts: seq<string>, convert: string -> Option<V>, throws: Throws<V>): Var<V>
    decreases |texts|
  {
    if texts == [] then s else FromTexts(FromText(s, texts[0], convert, throws), texts[1..], convert, throws)
  }

  /** The effect of the first node on one variable, and of the rest. */
  lemma TextsNext<V>(
    s: Var<V>, list: seq<(string, Node)>, k: nat, name: string, dump: Node -> string,
    convert: string -> Option<V>, throws: Throws<V>)
    requires k < |list|
    ensures FromTexts(s, TextsFor(list[k..], name, dump), convert, throws) ==
            FromTexts(FromNode(s, list[k], name, dump, convert, throws), TextsFor(list[k + 1..], name, dump),
                      convert, throws)
  {
    assert list[k..][1..] == list[k + 1..];
    if list[k].0 != "" && Lower(list[k].0) == name {
      var rest := TextsFor(list[k + 1..], name, dump);
      assert ([TextOf(list[k].1, dump)] + rest)[1..] == rest;
    }
  }

  /** One listed node, seen by the variable `name`. */
  function FromNode<V(==)>(
    s: Var<V>, x: (string, Node), name: string, dump: Node -> string,
    convert: string -> Option<V>, throws: Throws<V>): Var<V> {
    if x.0 != "" && Lower(x.0) == name then FromText(s, TextOf(x.1, dump), convert, throws) else s
  }

  lemma {:induction false} FromTextsConcat<V>(
    s: Var<V>, a: seq<string>, b: seq<string>, convert: string -> Option<V>, throws: Throws<V>)
    ensures FromTexts(s, a + b, convert, throws) == FromTexts(FromTexts(s, a, convert, throws), b, convert, throws)
    decreases |a|
  {
    if a == [] {
      assert a + b == b;
    } else {
      assert (a + b)[1..] == a[1..] + b;
      FromTextsConcat(FromText(s, a[0], convert, throws), a[1..], b, convert, throws);
    }
  }

  // ---------- The last successful write ----------

  ghost predicate NeverThrows<V(!new)>(throws: Throws<V>) {
    forall id, was, now :: !throws(id, was, now)
  }

  /** The value of the last text that converts, or `v0`. */
  function LastConverting<V>(texts: seq<string>, convert: string -> Option<V>, v0: V): V {
    if texts == [] then v0
    else
      match convert(texts[|texts| - 1])
      case Some(v) => v
      case None => LastConverting(texts[..|texts| - 1], convert, v0)
  }

  /** The last text that converts is written when its turn comes, or is there already; or none converts. */
  predicate LastWritten<V(==)>(s: Var<V>, texts: seq<string>, convert: string -> Option<V>, throws: Throws<V>) {
    if texts == [] then true
    else
      var before := texts[..|texts| - 1];
      var v := convert(texts[|texts| - 1]);
      if v.None? then LastWritten(s, before, convert, throws)
      else Writes(FromTexts(s, before, convert, throws), v, throws)
  }

  lemma FromTextsLast<V>(s: Var<V>, texts: seq<string>, convert: string -> Option<V>, throws: Throws<V>)
    requires texts != []
    ensures FromTexts(s, texts, convert, throws) ==
            FromText(FromTexts(s, texts[..|texts| - 1], convert, throws), texts[|texts| - 1], convert, throws)
  {
    var n := |texts| - 1;
    assert texts == texts[..n] + [texts[n]];
    FromTextsConcat(s, texts[..n], [texts[n]], convert, throws);
  }

  /** The value after a load is that of the last text that converts exactly if that text was written. */
  lemma {:induction false} LastWrite<V(!new)>(
    s: Var<V>, texts: seq<string>, convert: string -> Option<V>, throws: Throws<V>)
    ensures FromTexts(s, texts, convert, throws).val == LastConverting(texts, convert, s.val) <==>
            LastWritten(s, texts, convert, throws)
    ensures FromTexts(s, texts, convert, throws).cbs == s.cbs
    decreases |texts|
  {
    if texts != [] {
      LastWrite(s, texts[..|texts| - 1], convert, throws);
      FromTextsLast(s, texts, convert, throws);
    }
  }

  lemma {:induction false} NeverThrowsWrites<V(!new)>(
    s: Var<V>, texts: seq<string>, convert: string -> Option<V>, throws: Throws<V>)
    requires NeverThrows(throws)
    ensures LastWritten(s, texts, convert, throws)
    decreases |texts|
  {
    if texts != [] {
      NeverThrowsWrites(s, texts[..|texts| - 1], convert, throws);
    }
  }

  // ---------- Loading again ----------

  /** Every text that converts converts to `v`. */
  ghost predicate AllConvertTo<V(!new)>(texts: seq<string>, convert: string -> Option<V>, v: V) {
    forall k :: 0 <= k < |texts| && convert(texts[k]).Some? ==> convert(texts[k]).value == v
  }

  ghost predicate Agree<V(!new)>(texts: seq<string>, convert: string -> Option<V>) {
    forall j, k :: 0 <= j < |texts| && 0 <= k < |texts| && convert(texts[j]).Some? && convert(texts[k]).Some? ==>
                     convert(texts[j]).value == convert(texts[k]).value
  }

  lemma {:induction false} NothingNew<V(!new)>(
    s: Var<V>, texts: seq<string>, convert: string -> Option<V>, throws: Throws<V>)
    requires AllConvertTo(texts, convert, s.val)
    ensures FromTexts(s, texts, convert, throws) == s
    decreases |texts|
  {
    if texts != [] {
      assert FromText(s, texts[0], convert, throws) == s;
      assert AllConvertTo(texts[1..], convert, s.val) by {
        forall k | 0 <= k < |texts[1..]| && convert(texts[1..][k]).Some? ensures convert(texts[1..][k]).value == s.val {
          assert texts[k + 1] == texts[1..][k];
        }
      }
      NothingNew(s, texts[1..], convert, throws);
    }
  }

  lemma {:induction false} CallsGrow<V(!new)>(
    s: Var<V>, texts: seq<string>, convert: string -> Option<V>, throws: Throws<V>)
    requires s.cbs != []
    ensures FromTexts(s, texts, convert, throws).cbs == s.cbs
    ensures |FromTexts(s, texts, convert, throws).calls| >= |s.calls|
    ensures |FromTexts(s, texts, convert, throws).calls| == |s.calls| ==> AllConvertTo(texts, convert, s.val)
    decreases |texts|
  {
    if texts != [] {
      CallsGrow(FromText(s, texts[0], convert, throws), texts[1..], convert, throws);
      if |FromTexts(s, texts, convert, throws).calls| == |s.calls| {
        forall k | 0 <= k < |texts| && convert(texts[k]).Some? ensures convert(texts[k]).value == s.val {
          assert k > 0 ==> texts[k] == texts[1..][k - 1];
        }
      }
    }
  }

  lemma {:induction false} LastAgrees<V(!new)>(texts: seq<string>, convert: string -> Option<V>, v0: V)
    ensures Agree(texts, convert) <==> AllConvertTo(texts, convert, LastConverting(texts, convert, v0))
    decreases |texts|
  {
    if texts != [] && convert(texts[|texts| - 1]).None? {
      var n := |texts| - 1;
      LastAgrees(texts[..n], convert, v0);
      var v := LastConverting(texts[..n], convert, v0);
      assert AllConvertTo(texts, convert, v) <==> AllConvertTo(texts[..n], convert, v);
      assert Agree(texts, convert) <==> Agree(texts[..n], convert);
    }
  }

  /** Without listeners every text that converts is written. */
  lemma {:induction false} NoListeners<V(!new)>(
    s: Var<V>, texts: seq<string>, convert: string -> Option<V>, throws: Throws<V>)
    requires s.cbs == []
    ensures FromTexts(s, texts, convert, throws) == s.(val := LastConverting(texts, convert, s.val))
    ensures LastWritten(s, texts, convert, throws)
    decreases |texts|
  {
    if texts != [] {
      NoListeners(s, texts[..|texts| - 1], convert, throws);
      FromTextsLast(s, texts, convert, throws);
    }
  }

  /** A second load of the same texts finds all that convert in agreement, the last one written by the first. */
  ghost predicate Silent<V(!new)>(s: Var<V>, texts: seq<string>, convert: string -> Option<V>, throws: Throws<V>) {
    Agree(texts, convert) && LastWritten(s, texts, convert, throws)
  }

  /**
   A second load of the same texts changes nothing, and calls no listener, exactly if there is none or all
   texts that convert agree and the last of them was written by the first load.
   */
  lemma SecondLoadSilent<V(!new)>(s: Var<V>, texts: seq<string>, convert: string -> Option<V>, throws: Throws<V>)
    ensures
      var t := FromTexts(s, texts, convert, throws);
      && (Silent(s, texts, convert, throws) <==> AllConvertTo(texts, convert, t.val))
      && (FromTexts(t, texts, convert, throws) == t <==> s.cbs == [] || Silent(s, texts, convert, throws))
      && (FromTexts(t, texts, convert, throws).calls == t.calls <==> s.cbs == [] || Silent(s, texts, convert, throws))
  {
    var t := FromTexts(s, texts, convert, throws);
    LastWrite(s, texts, convert, throws);
    LastAgrees(texts, convert, s.val);
    if AllConvertTo(texts, convert, t.val) {
      LastOrNone(texts, convert, s.val, t.val);
      if forall k :: 0 <= k < |texts| ==> convert(texts[k]).None? {
        NothingNew(s, texts, convert, throws);
      }
      NothingNew(t, texts, convert, throws);
    }
    if s.cbs == [] {
      NoListeners(s, texts, convert, throws);
      NoListeners(t, texts, convert, throws);
      LastAgain(texts, convert, s.val);
    } else {
      CallsGrow(t, texts, convert, throws);
    }
  }

  /** Starting from the last value that converts, the last value that converts is the same. */
  lemma {:induction false} LastAgain<V(!new)>(texts: seq<string>, convert: string -> Option<V>, v0: V)
    ensures LastConverting(texts, convert, LastConverting(texts, convert, v0)) == LastConverting(texts, convert, v0)
    decreases |texts|
  {
    if texts != [] && convert(texts[|texts| - 1]).None? {
      LastAgain(texts[..|texts| - 1], convert, v0);
    }
  }

  /** If all texts that convert give `v`, then so does the last of them, unless there is none. */
  lemma {:induction false} LastOrNone<V(!new)>(texts: seq<string>, convert: string -> Option<V>, v0: V, v: V)
    requires AllConvertTo(texts, convert, v)
    ensures LastConverting(texts, convert, v0) == v ||
            (LastConverting(texts, convert, v0) == v0 && forall k :: 0 <= k < |texts| ==> convert(texts[k]).None?)
    decreases |texts|
  {
    if texts != [] && convert(texts[|texts| - 1]).None? {
      LastOrNone(texts[..|texts| - 1], convert, v0, v);
    }
  }

  lemma {:induction false} AtMostOneText(list: seq<(string, Node)>, name: string, dump: Node -> string)
    requires DistinctNames(list) && forall x :: x in list ==> Lower(x.0) == x.0
    ensures |TextsFor(list, name, dump)| <= 1
    ensures (forall x :: x in list ==> x.0 != name) ==> TextsFor(list, name, dump) == []
    decreases |list|
  {
    if list != [] {
      assert list[0] in list;
      forall x | x in list[1..] ensures x in list && x.0 != list[0].0 {}
      AtMostOneText(list[1..], name, dump);
    }
  }

  /**
   Loading a tree with sound keys a second time changes nothing and calls no listener exactly if the first
   load wrote what it converted; without callbacks that throw it always did.
   */
  lemma ReloadIsSilent<V(!new)>(
    root: Node, name: string, dump: Node -> string, s: Var<V>, convert: string -> Option<V>, throws: Throws<V>)
    requires WellKeyed(root)
    ensures
      var texts := TextsFor(Flatten("", root), name, dump);
      var t := FromTexts(s, texts, convert, throws);
      && |texts| <= 1
      && (FromTexts(t, texts, convert, throws) == t <==> LastWritten(s, texts, convert, throws))
      && (FromTexts(t, texts, convert, throws).calls == t.calls <==> LastWritten(s, texts, convert, throws))
      && (NeverThrows(throws) ==> LastWritten(s, texts, convert, throws))
  {
    var texts := TextsFor(Flatten("", root), name, dump);
    OneTextEach(root, name, dump);
    SecondLoadSilent(s, texts, convert, throws);
    if s.cbs == [] {
      NoListeners(s, texts, convert, throws);
    }
    if NeverThrows(throws) {
      NeverThrowsWrites(s, texts, convert, throws);
    }
  }

  /** A tree with sound keys addresses each variable at most once. */
  lemma OneTextEach(root: Node, name: string, dump: Node -> string)
    requires WellKeyed(root)
    ensures |TextsFor(Flatten("", root), name, dump)| <= 1
  {
    var list := Flatten("", root);
    NamesAreDistinct(root);
    forall x | x in list ensures Lower(x.0) == x.0 { ListedNamesAreLower(root, x); }
    AtMostOneText(list, name, dump);
  }

  // ---------- By path ----------

  /** The text for the node at `path` is `text`. */
  ghost predicate SaysAt(root: Node, path: seq<nat>, dump: Node -> string, text: string)
    requires IsPath(root, path)
  {
    NodeAt(root, path) == Scalar(text) || (!NodeAt(root, path).Scalar? && text == dump(NodeAt(root, path)))
  }

  /** These are the paths that lead to the variable of that name, and in the same order. */
  ghost predicate Selects(all: seq<seq<nat>>, root: Node, name: string, paths: seq<seq<nat>>) {
    && (InOrder(all) ==> InOrder(paths))
    && forall path :: path in paths <==> path in all && IsPath(root, path) && NameAt("", root, path) == name
  }

  /** `texts` are what the nodes at these paths say. */
  ghost predicate Says(root: Node, paths: seq<seq<nat>>, dump: Node -> string, texts: seq<string>) {
    && |texts| == |paths|
    && forall k :: 0 <= k < |paths| ==> IsPath(root, paths[k]) && SaysAt(root, paths[k], dump, texts[k])
  }

  lemma {:induction false} Select(
    list: seq<(string, Node)>, all: seq<seq<nat>>, root: Node, name: string, dump: Node -> string)
    returns (paths: seq<seq<nat>>)
    requires Names(list, "", root, all) && name != "" && forall x :: x in list ==> Lower(x.0) == x.0
    ensures Selects(all, root, name, paths) && Says(root, paths, dump, TextsFor(list, name, dump))
    decreases |list|
  {
    if list == [] {
      paths := [];
    } else {
      var rest := Select(list[1..], all[1..], root, name, dump);
      SelectFirst(all, root, name, rest);
      paths := if NameAt("", root, all[0]) == name then [all[0]] + rest else rest;
      var texts := TextsFor(list[1..], name, dump);
      SaysFirst(root, all[0], TextOf(list[0].1, dump), rest, dump, texts);
    }
  }

  lemma SelectFirst(all: seq<seq<nat>>, root: Node, name: string, rest: seq<seq<nat>>)
    requires all != [] && IsPath(root, all[0]) && Selects(all[1..], root, name, rest)
    ensures Selects(all, root, name, if NameAt("", root, all[0]) == name then [all[0]] + rest else rest)
  {
    var paths := if NameAt("", root, all[0]) == name then [all[0]] + rest else rest;
    if InOrder(all) {
      assert InOrder(all[1..]);
      forall k | 0 <= k < |rest| ensures Before(all[0], rest[k]) { assert rest[k] in all[1..]; }
    }
    forall path ensures path in paths <==> path in all && IsPath(root, path) && NameAt("", root, path) == name {
      assert path in all <==> path == all[0] || path in all[1..];
    }
  }

  lemma SaysFirst(
    root: Node, path: seq<nat>, text: string, rest: seq<seq<nat>>, dump: Node -> string, texts: seq<string>)
    requires IsPath(root, path) && SaysAt(root, path, dump, text) && Says(root, rest, dump, texts)
    ensures Says(root, [path] + rest, dump, [text] + texts)
  {
  }

  /**
   For any tree: the texts for a variable are those of the nodes whose dotted name is the variable's, in
   document order.
   */
  lemma TextsByPath(root: Node, name: string, dump: Node -> string) returns (paths: seq<seq<nat>>)
    requires name != "" && ValidName(name)
    ensures |TextsFor(Flatten("", root), name, dump)| == |paths| && InOrder(paths)
    ensures forall path :: path in paths <==> IsPath(root, path) && NameAt("", root, path) == name
    ensures forall k :: 0 <= k < |paths| ==> SaysAt(root, paths[k], dump, TextsFor(Flatten("", root), name, dump)[k])
  {
    var all := PathOrder("", root);
    forall x | x in Flatten("", root) ensures Lower(x.0) == x.0 { ListedNamesAreLower(root, x); }
    paths := Select(Flatten("", root), all, root, name, dump);
  }

  lemma NoTextForNone(list: seq<(string, Node)>, dump: Node -> string)
    ensures TextsFor(list, "", dump) == []
  {
  }

  /** A converted value that no callback of `s` objects to is the value of `t`. */
  ghost predicate HasValue<V>(t: Var<V>, s: Var<V>, v: Option<V>, throws: Throws<V>) {
    v.Some? && (forall k :: 0 <= k < |s.cbs| ==> !throws(s.cbs[k], s.val, v.value)) ==> t.val == v.value
  }

  predicate NamedAt(root: Node, path: seq<nat>, name: string) {
    IsPath(root, path) && NameAt("", root, path) == name
  }

  /**
   What a load promises about one variable in terms of the tree: with sound keys the node of its name gives
   it its text, and a variable no node is named after, or without a name, is left alone.
   */
  ghost predicate ByPath<V>(
    t: Var<V>, s: Var<V>, root: Node, name: string, dump: Node -> string,
    convert: string -> Option<V>, throws: Throws<V>) {
    && (WellKeyed(root) && name != "" ==>
          forall path | NamedAt(root, path, name) ::
            && (forall text :: SaysAt(root, path, dump, text) ==> Takes(s, t, text, convert, throws))
            && (NodeAt(root, path).Scalar? ==> HasValue(t, s, convert(NodeAt(root, path).text), throws))
            && (!NodeAt(root, path).Scalar? ==> HasValue(t, s, convert(dump(NodeAt(root, path))), throws)))
    && (name == "" || (forall path :: IsPath(root, path) ==> NameAt("", root, path) != name) ==> t == s)
  }

  lemma LoadByPath<V>(
    s: Var<V>, root: Node, name: string, dump: Node -> string, convert: string -> Option<V>, throws: Throws<V>)
    requires ValidName(name)
    ensures ByPath(FromTexts(s, TextsFor(Flatten("", root), name, dump), convert, throws), s,
                   root, name, dump, convert, throws)
  {
    NoTextForNone(Flatten("", root), dump);
    if name != "" {
      var texts := TextsFor(Flatten("", root), name, dump);
      var t := FromTexts(s, texts, convert, throws);
      var paths := TextsByPath(root, name, dump);
      if WellKeyed(root) { OneTextEach(root, name, dump); }
      forall path | WellKeyed(root) && NamedAt(root, path, name)
        ensures |texts| == 1 && SaysAt(root, path, dump, texts[0]) && Takes(s, t, texts[0], convert, throws)
      {
        assert path in paths;
        assert texts == [texts[0]];
        OneText(s, texts[0], convert, throws);
      }
    }
  }

  lemma OneText<V>(s: Var<V>, text: string, convert: string -> Option<V>, throws: Throws<V>)
    ensures Takes(s, FromTexts(s, [text], convert, throws), text, convert, throws)
  {
    var t := FromText(s, text, convert, throws);
    assert FromTexts(t, [text][1..], convert, throws) == t;
    if convert(text).Some? { SetChanges(s, convert(text).value, throws); }
  }

  /** What a load promises about one variable, `t` after and `s` before. */
  ghost predicate LoadPromise<V(!new)>(
    t: Var<V>, s: Var<V>, root: Node, name: string, dump: Node -> string,
    convert: string -> Option<V>, throws: Throws<V>) {
    var texts := TextsFor(Flatten("", root), name, dump);
    && (t.val == LastConverting(texts, convert, s.val) <==> LastWritten(s, texts, convert, throws))
    && (AllConvertTo(texts, convert, s.val) ==> t == s)
    && (WellKeyed(root) ==> (AllConvertTo(texts, convert, t.val) <==> LastWritten(s, texts, convert, throws)))
  }

  lemma LoadKeepsPromise<V(!new)>(
    s: Var<V>, root: Node, name: string, dump: Node -> string, convert: string -> Option<V>, throws: Throws<V>)
    ensures LoadPromise(FromTexts(s, TextsFor(Flatten("", root), name, dump), convert, throws), s,
                        root, name, dump, convert, throws)
  {
    var texts := TextsFor(Flatten("", root), name, dump);
    LastWrite(s, texts, convert, throws);
    SecondLoadSilent(s, texts, convert, throws);
    if AllConvertTo(texts, convert, s.val) {
      NothingNew(s, texts, convert, throws);
    }
    if WellKeyed(root) {
      OneTextEach(root, name, dump);
    }
  }

  // ---------- The object ----------

  /** The four ways `Lookup` with a default ends: found, wrong type, bad name, created. */
  datatype LookupKind = Existing | TypeMismatch | InvalidName | Created

  class Config<V(==, !new)> {
    var data: map<string, ConfigVar<V>>

    ghost predicate Valid()
      reads this
    {
      && (forall n :: n in data ==> ValidName(n))
      && (forall n, m :: n in data && m in data && n != m ==> data[n] != data[m])
    }

    constructor ()
      ensures Valid() && data == map[]
    {
      data := map[];
    }

    method LookupBase(name: string) returns (v: ConfigVar?<V>)
      ensures if name in data then v == data[name] else v == null
    {
      v := if name in data then data[name] else null;
    }

    method Lookup(name: string, typeName: string, value: V, convert: string -> Option<V>, throws: Throws<V>)
      returns (kind: LookupKind, v: ConfigVar?<V>)
      requires Valid()
      modifies this
      ensures Valid()
      ensures kind == if name in old(data) && old(data)[name].typeName == typeName then Existing
                      else if name in old(data) then TypeMismatch
                      else if ValidName(name) then Created else InvalidName
      ensures kind != Created ==> data == old(data)
      ensures kind == Existing ==> v == data[name]
      ensures kind == TypeMismatch || kind == InvalidName ==> v == null
      ensures kind == Created ==> v != null && fresh(v) && data == old(data)[name := v]
      ensures kind == Created ==> v.State() == Var(value, [], [])
      ensures kind == Created ==> v.name == name && v.typeName == typeName && v.convert == convert && v.throws == throws
    {
      if name in data {
        if data[name].typeName == typeName {
          return Existing, data[name];
        }
        return TypeMismatch, null;
      }
      if !ValidName(name) {
        return InvalidName, null;
      }
      var created := new ConfigVar(name, typeName, value, convert, throws);
      data := data[name := created];
      return Created, created;
    }

    ghost predicate Loaded(root: Node, dump: Node -> string, name: string, before: Var<V>)
      requires name in data
      reads this, data[name]
    {
      data[name].State() ==
      FromTexts(before, TextsFor(Flatten("", root), name, dump), data[name].convert, data[name].throws)
    }

    /** The variable of that name after it has taken some texts. */
    function Taken(name: string, before: Var<V>, texts: seq<string>): Var<V>
      requires name in data
      reads this
    {
      FromTexts(before, texts, data[name].convert, data[name].throws)
    }

    /** What the last text of the tree for that variable that converts says, or `v0`. */
    function LastValue(root: Node, dump: Node -> string, name: string, v0: V): V
      requires name in data
      reads this
    {
      LastConverting(TextsFor(Flatten("", root), name, dump), data[name].convert, v0)
    }

    /** One node of the list: the variable of that name, if there is one, takes its text. */
    method ApplyNode(x: (string, Node), dump: Node -> string)
      requires Valid()
      modifies set n | n in data :: data[n]
      ensures data == old(data) && Valid()
      ensures forall n :: n in data ==>
                            data[n].State() ==
                            FromNode(old(data[n].State()), x, n, dump, data[n].convert, data[n].throws)
      ensures forall n :: n in data && (x.0 == "" || n != Lower(x.0)) ==> data[n].State() == old(data[n].State())
      ensures x.0 != "" && Lower(x.0) in data ==>
                var v := data[Lower(x.0)];
                && (x.1.Scalar? ==> Takes(old(v.State()), v.State(), x.1.text, v.convert, v.throws))
                && (!x.1.Scalar? ==> Takes(old(v.State()), v.State(), dump(x.1), v.convert, v.throws))
    {
      var key := x.0;
      if key == "" {
        return;
      }
      key := Lower(key);
      var v := LookupBase(key);
      if v != null {
        var ok := v.FromString(TextOf(x.1, dump));
      }
    }

    /** Whatever the tree says of this variable is the value it has. */
    ghost predicate Settled(root: Node, dump: Node -> string, name: string)
      requires name in data
      reads this, data[name]
    {
      AllConvertTo(TextsFor(Flatten("", root), name, dump), data[name].convert, data[name].val)
    }

    /** The last text of the tree for this variable that converts is written by a load, or none converts. */
    predicate Written(root: Node, dump: Node -> string, name: string, before: Var<V>)
      requires name in data
      reads this, data[name]
    {
      LastWritten(before, TextsFor(Flatten("", root), name, dump), data[name].convert, data[name].throws)
    }

    /**
     Every variable has taken the texts addressed to it, in preorder; nothing else has changed. Its value is
     that of the last text that converts exactly if that text was written. A variable that is settled stays
     as it is and calls nobody, and for a tree with sound keys a variable is settled after a load exactly if
     its text was written; so a second load is silent.
     */
    method LoadFromYaml(root: Node, dump: Node -> string)
      requires Valid()
      modifies set n | n in data :: data[n]
      ensures data == old(data) && Valid()
      ensures forall n :: n in data ==> Loaded(root, dump, n, old(data[n].State()))
      ensures forall n :: n in data ==>
                            (data[n].val == LastValue(root, dump, n, old(data[n].val))
                             <==> Written(root, dump, n, old(data[n].State())))
      ensures forall n :: n in data && old(Settled(root, dump, n)) ==> data[n].State() == old(data[n].State())
      ensures WellKeyed(root) ==>
                forall n :: n in data ==> (Settled(root, dump, n) <==> Written(root, dump, n, old(data[n].State())))
      ensures forall n :: n in data ==>
                            ByPath(data[n].State(), old(data[n].State()), root, n, dump,
                                   data[n].convert, data[n].throws)
    {
      var all := new NodeList();
      ListAllMember("", root, all);
      assert all.list == Flatten("", root);
      ApplyAll(all.list, dump);
      forall n | n in data
        ensures Loaded(root, dump, n, old(data[n].State()))
        ensures LoadPromise(data[n].State(), old(data[n].State()), root, n, dump, data[n].convert, data[n].throws)
        ensures ByPath(data[n].State(), old(data[n].State()), root, n, dump, data[n].convert, data[n].throws)
      {
        LoadByPath(old(data[n].State()), root, n, dump, data[n].convert, data[n].throws);
        LoadKeepsPromise(old(data[n].State()), root, n, dump, data[n].convert, data[n].throws);
      }
    }

    method ApplyAll(list: seq<(string, Node)>, dump: Node -> string)
      requires Valid()
      modifies set n | n in data :: data[n]
      ensures data == old(data) && Valid()
      ensures forall n :: n in data ==>
                            data[n].State() == Taken(n, old(data[n].State()), TextsFor(list, n, dump))
    {
      var k := 0;
      assert list[0..] == list;
      while k < |list|
        invariant 0 <= k <= |list| && data == old(data)
        invariant forall n :: n in data ==>
                                Taken(n, data[n].State(), TextsFor(list[k..], n, dump)) ==
                                Taken(n, old(data[n].State()), TextsFor(list, n, dump))
      {
        forall n | n in data {
          TextsNext(data[n].State(), list, k, n, dump, data[n].convert, data[n].throws);
        }
        ApplyNode(list[k], dump);
        k := k + 1;
      }
    }
  }
}
