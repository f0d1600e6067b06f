/** Flattening a YAML tree to dotted names (mocker/config.cpp, `ListAllMember`). */
module ConfigTree {

  /** A parsed YAML node: a scalar, a map in document order, or anything else with its dump. */
  datatype Node = Scalar(text: string) | Map(entries: seq<Child>) | Other(text: string)

  datatype Child = Child(key: string, value: Node)

  predicate ValidChar(c: char) {
    'a' <= c <= 'z' || c == '.' || c == '_' || '0' <= c <= '9'
  }

  /** No character outside the list that `find_first_not_of` is given. */
  predicate ValidName(s: string) {
    forall k :: 0 <= k < |s| ==> ValidChar(s[k])
  }

  /** The characters of the source's list, and no others. */
  lemma NameCharacters(c: char)
    ensures ValidName([c]) <==> c in "abcdefghijklm" + "nopqrstuvwxyz" + "._0123456789"
  {
    assert ValidName([c]) <==> ValidChar(c) by { assert [c][0] == c; }
    FirstLetters(c);
    LastLetters(c);
    OtherCharacters(c);
  }

  lemma FirstLetters(c: char)
    ensures c in "abcdefghijklm" <==> 'a' <= c <= 'm'
  {
    var all := "abcdefghijklm";
    assert 'a' <= c <= 'm' ==> all[c as int - 'a' as int] == c;
  }

  lemma LastLetters(c: char)
    ensures c in "nopqrstuvwxyz" <==> 'n' <= c <= 'z'
  {
    var all := "nopqrstuvwxyz";
    assert 'n' <= c <= 'z' ==> all[c as int - 'n' as int] == c;
  }

  lemma OtherCharacters(c: char)
    ensures c in "._0123456789" <==> c == '.' || c == '_' || '0' <= c <= '9'
  {
    var all := "._0123456789";
    assert '0' <= c <= '9' ==> all[2 + (c as int - '0' as int)] == c;
    assert all[0] == '.' && all[1] == '_';
  }

  lemma JoinedName(s: string, t: string)
    ensures ValidName(s + "." + t) <==> ValidName(s) && ValidName(t)
  {
    var n := s + "." + t;
    if ValidName(n) {
      forall k | 0 <= k < |s| ensures ValidChar(s[k]) { assert n[k] == s[k]; }
      forall k | 0 <= k < |t| ensures ValidChar(t[k]) { assert n[|s| + 1 + k] == t[k]; }
    }
  }

  function ChildName(prefix: string, key: string): string {
    if prefix == "" then key else prefix + "." + key
  }

  /** The pairs `ListAllMember` appends, in preorder. */
  function Flatten(prefix: string, node: Node): seq<(string, Node)>
    decreases node, 1
  {
    if !ValidName(prefix) then []
    else [(prefix, node)] + if node.Map? then FlattenEntries(prefix, node.entries) else []
  }

  function FlattenEntries(prefix: string, es: seq<Child>): seq<(string, Node)>
    decreases es, 0
  {
    if es == [] then []
    else Flatten(ChildName(prefix, es[0].key), es[0].value) + FlattenEntries(prefix, es[1..])
  }

  lemma FlattenNext(prefix: string, es: seq<Child>, n: nat, before: seq<(string, Node)>)
    requires n < |es|
    ensures before + FlattenEntries(prefix, es[n..]) ==
            before + Flatten(ChildName(prefix, es[n].key), es[n].value) + FlattenEntries(prefix, es[n + 1..])
  {
    assert es[n..][1..] == es[n + 1..];
  }

  lemma FlattenNode(prefix: string, node: Node, before: seq<(string, Node)>)
    requires ValidName(prefix)
    ensures before + Flatten(prefix, node) ==
            before + [(prefix, node)] + (if node.Map? then FlattenEntries(prefix, node.entries) else [])
  {
  }

  /** The list passed by reference. */
  class NodeList {
    var list: seq<(string, Node)>

    constructor ()
      ensures list == []
    {
      list := [];
    }
  }

  method ListAllMember(prefix: string, node: Node, output: NodeList)
    modifies output
    ensures output.list == old(output.list) + Flatten(prefix, node)
    decreases node, 1
  {
    if !ValidName(prefix) {
      return;
    }
    FlattenNode(prefix, node, output.list);
    output.list := output.list + [(prefix, node)];
    if node.Map? {
      ListChildren(prefix, node.entries, output);
    }
  }

  /** The loop over the entries of a map. */
  method ListChildren(prefix: string, entries: seq<Child>, output: NodeList)
    modifies output
    ensures output.list == old(output.list) + FlattenEntries(prefix, entries)
    decreases entries, 0
  {
    var it := 0;
    while it < |entries|
      invariant 0 <= it <= |entries|
      invariant output.list + FlattenEntries(prefix, entries[it..]) ==
                old(output.list) + FlattenEntries(prefix, entries)
    {
      FlattenNext(prefix, entries, it, output.list);
      ListAllMember(ChildName(prefix, entries[it].key), entries[it].value, output);
      it := it + 1;
    }
  }

  // ---------- Which nodes are listed ----------

  /** A path names a child index at every map on the way down. */
  predicate IsPath(node: Node, path: seq<nat>)
    decreases |path|
  {
    path == [] || (node.Map? && path[0] < |node.entries| && IsPath(node.entries[path[0]].value, path[1..]))
  }

  function NodeAt(node: Node, path: seq<nat>): Node
    requires IsPath(node, path)
    decreases |path|
  {
    if path == [] then node else NodeAt(node.entries[path[0]].value, path[1..])
  }

  function NameAt(prefix: string, node: Node, path: seq<nat>): string
    requires IsPath(node, path)
    decreases |path|
  {
    if path == [] then prefix
    else NameAt(ChildName(prefix, node.entries[path[0]].key), node.entries[path[0]].value, path[1..])
  }

  lemma {:induction false} NameExtends(prefix: string, node: Node, path: seq<nat>)
    requires IsPath(node, path)
    ensures prefix <= NameAt(prefix, node, path)
    ensures ValidName(NameAt(prefix, node, path)) ==> ValidName(prefix)
    decreases |path|
  {
    if path != [] {
      NameExtends(ChildName(prefix, node.entries[path[0]].key), node.entries[path[0]].value, path[1..]);
    }
  }

  lemma {:induction false} EntryListed(prefix: string, es: seq<Child>, k: nat, x: (string, Node))
    requires k < |es| && x in Flatten(ChildName(prefix, es[k].key), es[k].value)
    ensures x in FlattenEntries(prefix, es)
    decreases k
  {
    if k > 0 {
      EntryListed(prefix, es[1..], k - 1, x);
    }
  }

  predicate ListedIn(prefix: string, e: Child, x: (string, Node)) {
    x in Flatten(ChildName(prefix, e.key), e.value)
  }

  lemma ListedEntry(prefix: string, es: seq<Child>, x: (string, Node)) returns (k: nat)
    requires x in FlattenEntries(prefix, es)
    ensures k < |es| && ListedIn(prefix, es[k], x)
  {
    assert es[0..] == es;
    k := ListedFrom(prefix, es, 0, x);
  }

  lemma {:induction false} ListedFrom(prefix: string, es: seq<Child>, n: nat, x: (string, Node)) returns (k: nat)
    requires n <= |es| && x in FlattenEntries(prefix, es[n..])
    ensures k < |es| && ListedIn(prefix, es[k], x)
    decreases |es| - n
  {
    if ListedIn(prefix, es[n], x) {
      k := n;
    } else {
      InRest(prefix, es, n, x);
      k := ListedFrom(prefix, es, n + 1, x);
    }
  }

  lemma InRest(prefix: string, es: seq<Child>, n: nat, x: (string, Node))
    requires n < |es| && x in FlattenEntries(prefix, es[n..]) && !ListedIn(prefix, es[n], x)
    ensures x in FlattenEntries(prefix, es[n + 1..])
  {
    FlattenNext(prefix, es, n, []);
  }

  lemma {:induction false} PathListed(prefix: string, node: Node, path: seq<nat>)
    requires IsPath(node, path) && ValidName(NameAt(prefix, node, path))
    ensures (NameAt(prefix, node, path), NodeAt(node, path)) in Flatten(prefix, node)
    decreases |path|
  {
    NameExtends(prefix, node, path);
    if path != [] {
      var e := node.entries[path[0]];
      PathListed(ChildName(prefix, e.key), e.value, path[1..]);
      EntryListed(prefix, node.entries, path[0], (NameAt(prefix, node, path), NodeAt(node, path)));
    }
  }

  lemma {:induction false} ListedPath(prefix: string, node: Node, x: (string, Node)) returns (path: seq<nat>)
    requires x in Flatten(prefix, node)
    ensures IsPath(node, path) && x == (NameAt(prefix, node, path), NodeAt(node, path)) && ValidName(x.0)
    decreases node
  {
    if x == (prefix, node) {
      path := [];
    } else {
      var k := ListedEntry(prefix, node.entries, x);
      var rest := ListedPath(ChildName(prefix, node.entries[k].key), node.entries[k].value, x);
      path := [k] + rest;
    }
  }

  /** Listed are exactly the nodes whose own dotted name is valid, under that name. */
  lemma ListedIffValid(root: Node, x: (string, Node))
    ensures x in Flatten("", root) <==>
            exists path :: IsPath(root, path) && x == (NameAt("", root, path), NodeAt(root, path)) && ValidName(x.0)
  {
    if x in Flatten("", root) {
      var path := ListedPath("", root, x);
    }
    if path :| IsPath(root, path) && x == (NameAt("", root, path), NodeAt(root, path)) && ValidName(x.0) {
      PathListed("", root, path);
    }
  }

  // ---------- In which order ----------

  /** Document order: a node before the nodes below it, and earlier entries first. */
  predicate Before(p: seq<nat>, q: seq<nat>) {
    q != [] && (p == [] || p[0] < q[0] || (p[0] == q[0] && Before(p[1..], q[1..])))
  }

  predicate InOrder(paths: seq<seq<nat>>) {
    forall j, k :: 0 <= j < k < |paths| ==> Before(paths[j], paths[k])
  }

  /** The node there is listed. */
  predicate IsListed(prefix: string, node: Node, path: seq<nat>) {
    IsPath(node, path) && ValidName(NameAt(prefix, node, path))
  }

  /** The list names the nodes at these paths. */
  predicate Names(list: seq<(string, Node)>, prefix: string, node: Node, paths: seq<seq<nat>>) {
    && |list| == |paths|
    && forall k :: 0 <= k < |list| ==>
                     IsPath(node, paths[k]) && list[k] == (NameAt(prefix, node, paths[k]), NodeAt(node, paths[k]))
  }

  /** These paths are what `Flatten` lists. */
  ghost predicate Ordered(prefix: string, node: Node, paths: seq<seq<nat>>) {
    && Names(Flatten(prefix, node), prefix, node, paths) && InOrder(paths)
    && forall path :: path in paths <==> IsListed(prefix, node, path)
  }

  /** The same for the entries of a map from `n` on. */
  ghost predicate OrderedFrom(prefix: string, node: Node, n: nat, paths: seq<seq<nat>>)
    requires node.Map? && n <= |node.entries|
  {
    && Names(FlattenEntries(prefix, node.entries[n..]), prefix, node, paths) && InOrder(paths)
    && forall path :: path in paths <==> path != [] && n <= path[0] && IsListed(prefix, node, path)
  }

  function Below(k: nat, paths: seq<seq<nat>>): (r: seq<seq<nat>>)
    ensures |r| == |paths| && forall j :: 0 <= j < |paths| ==> r[j] == [k] + paths[j]
  {
    seq(|paths|, j requires 0 <= j < |paths| => [k] + paths[j])
  }

  lemma BelowIn(k: nat, paths: seq<seq<nat>>, path: seq<nat>)
    ensures path in Below(k, paths) <==> path != [] && path[0] == k && path[1..] in paths
  {
    if path != [] && path[0] == k && path[1..] in paths {
      var j :| 0 <= j < |paths| && paths[j] == path[1..];
      assert Below(k, paths)[j] == [k] + path[1..] == path;
    }
  }

  /** What is listed, exactly and in order: the nodes whose dotted name is valid, in document order. */
  lemma {:induction false} PathOrder(prefix: string, node: Node) returns (paths: seq<seq<nat>>)
    ensures Ordered(prefix, node, paths)
    decreases node, |if node.Map? then node.entries else []| + 1
  {
    if !ValidName(prefix) {
      paths := [];
      forall path | IsPath(node, path) ensures !IsListed(prefix, node, path) { NameExtends(prefix, node, path); }
    } else if node.Map? {
      var rest := PathOrderFrom(prefix, node, 0);
      assert node.entries[0..] == node.entries;
      paths := [[]] + rest;
      RootFirst(prefix, node, rest);
    } else {
      paths := [[]];
    }
  }

  lemma RootFirst(prefix: string, node: Node, rest: seq<seq<nat>>)
    requires ValidName(prefix) && node.Map? && OrderedFrom(prefix, node, 0, rest)
    requires node.entries[0..] == node.entries
    ensures Ordered(prefix, node, [[]] + rest)
  {
    var paths := [[]] + rest;
    assert paths[1..] == rest;
    assert InOrder(paths) by {
      forall j, k | 0 <= j < k < |paths| ensures Before(paths[j], paths[k]) {
        assert paths[k] == rest[k - 1] && rest[k - 1] in rest;
        assert j > 0 ==> paths[j] == rest[j - 1];
      }
    }
    forall path ensures path in paths <==> IsListed(prefix, node, path) {
      assert path in paths <==> path == [] || path in rest;
    }
  }

  lemma {:induction false} PathOrderFrom(prefix: string, node: Node, n: nat) returns (paths: seq<seq<nat>>)
    requires node.Map? && n <= |node.entries|
    ensures OrderedFrom(prefix, node, n, paths)
    decreases node, |node.entries| - n
  {
    if n == |node.entries| {
      paths := [];
    } else {
      var e := node.entries[n];
      var first := PathOrder(ChildName(prefix, e.key), e.value);
      var rest := PathOrderFrom(prefix, node, n + 1);
      paths := Below(n, first) + rest;
      EntryFirst(prefix, node, n, first, rest);
    }
  }

  lemma EntryFirst(prefix: string, node: Node, n: nat, first: seq<seq<nat>>, rest: seq<seq<nat>>)
    requires node.Map? && n < |node.entries|
    requires Ordered(ChildName(prefix, node.entries[n].key), node.entries[n].value, first)
    requires OrderedFrom(prefix, node, n + 1, rest)
    ensures OrderedFrom(prefix, node, n, Below(n, first) + rest)
  {
    var e := node.entries[n];
    var mine := Below(n, first);
    FlattenNext(prefix, node.entries, n, []);
    assert Names(Flatten(ChildName(prefix, e.key), e.value), prefix, node, mine);
    assert InOrder(mine + rest) by { EntryInOrder(n, first, rest); }
    forall path ensures path in mine + rest <==> path != [] && n <= path[0] && IsListed(prefix, node, path) {
      BelowIn(n, first, path);
      assert path in mine + rest <==> path in mine || path in rest;
    }
  }

  lemma EntryInOrder(n: nat, first: seq<seq<nat>>, rest: seq<seq<nat>>)
    requires InOrder(first) && InOrder(rest) && forall p :: p in rest ==> p != [] && n < p[0]
    ensures InOrder(Below(n, first) + rest)
  {
    var mine := Below(n, first);
    forall j, k | 0 <= j < k < |mine + rest| ensures Before((mine + rest)[j], (mine + rest)[k]) {
      if k < |mine| {
        assert Before(first[j], first[k]) && mine[j][1..] == first[j] && mine[k][1..] == first[k];
      } else {
        assert rest[k - |mine|] in rest;
      }
    }
  }

  lemma {:induction false} BeforeIsStrict(p: seq<nat>, q: seq<nat>)
    ensures p != q <==> Before(p, q) || Before(q, p)
    ensures !(Before(p, q) && Before(q, p))
    decreases |p|
  {
    if p != [] && q != [] && p[0] == q[0] {
      BeforeIsStrict(p[1..], q[1..]);
      assert p == [p[0]] + p[1..] && q == [q[0]] + q[1..];
    }
  }

  // ---------- Lower-casing changes nothing ----------

  function LowerChar(c: char): char {
    if 'A' <= c <= 'Z' then (c as int + 32) as char else c
  }

  function Lower(s: string): (r: string)
    ensures |r| == |s| && forall k :: 0 <= k < |s| ==> r[k] == LowerChar(s[k])
  {
    seq(|s|, k requires 0 <= k < |s| => LowerChar(s[k]))
  }

  /** For any tree, the names listed are in lower case already. */
  lemma ListedNamesAreLower(root: Node, x: (string, Node))
    requires x in Flatten("", root)
    ensures Lower(x.0) == x.0
  {
    var path := ListedPath("", root, x);
  }

  // ---------- Names are distinct ----------

  predicate DotFree(s: string) {
    forall k :: 0 <= k < |s| ==> s[k] != '.'
  }

  /** Every map has non-empty, dot-free keys, no two of them equal. */
  predicate WellKeyed(node: Node)
    decreases node
  {
    node.Map? ==>
      && (forall k :: 0 <= k < |node.entries| ==>
                        node.entries[k].key != "" && DotFree(node.entries[k].key) && WellKeyed(node.entries[k].value))
      && (forall j, k :: 0 <= j < k < |node.entries| ==> node.entries[j].key != node.entries[k].key)
  }

  predicate DistinctNames(list: seq<(string, Node)>) {
    forall j, k :: 0 <= j < k < |list| ==> list[j].0 != list[k].0
  }

  /** `name` is `base` or lies below it. */
  predicate Under(name: string, base: string) {
    name == base || base + "." <= name
  }

  lemma {:induction false} FlattenUnder(prefix: string, node: Node, x: (string, Node))
    requires x in Flatten(prefix, node) && prefix != ""
    ensures Under(x.0, prefix)
    decreases node
  {
    if x != (prefix, node) {
      var k := ListedEntry(prefix, node.entries, x);
      FlattenUnder(ChildName(prefix, node.entries[k].key), node.entries[k].value, x);
    }
  }

  /** Up to the first dot. */
  function FirstSegment(s: string): string {
    if s == "" || s[0] == '.' then "" else [s[0]] + FirstSegment(s[1..])
  }

  lemma {:induction false} SegmentOf(rest: string, key: string)
    requires DotFree(key) && Under(rest, key)
    ensures FirstSegment(rest) == key
    decreases |key|
  {
    if key != "" {
      assert rest[0] == (key + ".")[0];
      assert rest == key ==> rest[1..] == key[1..];
      assert (key + ".")[1..] == key[1..] + ".";
      SegmentOf(rest[1..], key[1..]);
    }
  }

  /** Past the prefix and its dot, the name lies under the key. */
  lemma UnderChild(prefix: string, key: string, name: string)
    requires Under(name, ChildName(prefix, key))
    ensures prefix == "" ==> Under(name[0..], key)
    ensures prefix != "" ==> |prefix| < |name| && Under(name[|prefix| + 1..], key)
  {
    if prefix == "" {
      assert name[0..] == name;
    } else {
      var n := |prefix| + 1;
      assert |prefix + "."| == n;
      if name == ChildName(prefix, key) {
        assert name[n..] == key;
      } else {
        var base := prefix + "." + key + ".";
        assert base == name[..|base|];
        assert base[n..] == key + ".";
        assert name[n..][..|key + "."|] == base[n..];
      }
    }
  }

  /** Two keys with a common descendant name are equal. */
  lemma SameKey(prefix: string, a: string, b: string, name: string)
    requires DotFree(a) && DotFree(b)
    requires Under(name, ChildName(prefix, a)) && Under(name, ChildName(prefix, b))
    ensures a == b
  {
    var n := if prefix == "" then 0 else |prefix| + 1;
    UnderChild(prefix, a, name);
    UnderChild(prefix, b, name);
    SegmentOf(name[n..], a);
    SegmentOf(name[n..], b);
  }

  lemma DistinctConcat(a: seq<(string, Node)>, b: seq<(string, Node)>)
    requires DistinctNames(a) && DistinctNames(b)
    requires forall x, y :: x in a && y in b ==> x.0 != y.0
    ensures DistinctNames(a + b)
  {
  }

  lemma {:induction false} FlattenDistinct(prefix: string, node: Node)
    requires WellKeyed(node)
    ensures DistinctNames(Flatten(prefix, node))
    decreases node, 1
  {
    if ValidName(prefix) && node.Map? {
      EntriesDistinct(prefix, node.entries);
      var below := FlattenEntries(prefix, node.entries);
      forall y | y in below ensures y.0 != prefix {
        var k := ListedEntry(prefix, node.entries, y);
        FlattenUnder(ChildName(prefix, node.entries[k].key), node.entries[k].value, y);
      }
      DistinctConcat([(prefix, node)], below);
    }
  }

  lemma {:induction false} EntriesDistinct(prefix: string, es: seq<Child>)
    requires forall k :: 0 <= k < |es| ==> es[k].key != "" && DotFree(es[k].key) && WellKeyed(es[k].value)
    requires forall j, k :: 0 <= j < k < |es| ==> es[j].key != es[k].key
    ensures DistinctNames(FlattenEntries(prefix, es))
    decreases es, 0
  {
    if es != [] {
      var first := Flatten(ChildName(prefix, es[0].key), es[0].value);
      FlattenDistinct(ChildName(prefix, es[0].key), es[0].value);
      EntriesDistinct(prefix, es[1..]);
      forall x, y | x in first && y in FlattenEntries(prefix, es[1..]) ensures x.0 != y.0 {
        var k := ListedEntry(prefix, es[1..], y);
        FlattenUnder(ChildName(prefix, es[0].key), es[0].value, x);
        FlattenUnder(ChildName(prefix, es[k + 1].key), es[k + 1].value, y);
        if x.0 == y.0 {
          SameKey(prefix, es[0].key, es[k + 1].key, x.0);
        }
      }
      DistinctConcat(first, FlattenEntries(prefix, es[1..]));
    }
  }

  /** Flattening is injective on well-keyed trees. */
  lemma NamesAreDistinct(root: Node)
    requires WellKeyed(root)
    ensures DistinctNames(Flatten("", root))
  {
    FlattenDistinct("", root);
  }
}
