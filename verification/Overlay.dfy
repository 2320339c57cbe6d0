/**
 The home overlay (`src/launch/mod.rs:135-199`): a harness runs in a directory of links into the real home, and what it made
 there that is not a link is moved back afterwards. A directory is the list of its entries in the order a listing gives them.
 */
module Overlay {
  import opened Wrappers

  datatype Node = File(content: string) | Dir(entries: seq<Entry>)

  datatype Entry = Entry(name: string, node: Node)

  const SUFFIX := ".ashkelon-overlay-conflict"

  function Aside(name: string): string {
    name + SUFFIX
  }

  predicate IsAside(name: string) {
    |SUFFIX| <= |name| && name[|name| - |SUFFIX|..] == SUFFIX
  }

  // ---------- one directory ----------

  function Find(dir: seq<Entry>, name: string): Option<Node> {
    if dir == [] then None
    else if dir[0].name == name then Some(dir[0].node)
    else Find(dir[1..], name)
  }

  /** The directory with one name holding a node: in its place when the name is there, else as a new entry. */
  function Put(dir: seq<Entry>, name: string, node: Node): seq<Entry> {
    if dir == [] then [Entry(name, node)]
    else if dir[0].name == name then [Entry(name, node)] + dir[1..]
    else [dir[0]] + Put(dir[1..], name, node)
  }

  lemma {:induction false} FindPut(dir: seq<Entry>, name: string, node: Node, other: string)
    ensures Find(Put(dir, name, node), other) == if other == name then Some(node) else Find(dir, other)
  {
    if dir != [] && dir[0].name != name {
      FindPut(dir[1..], name, node, other);
    }
  }

  /** The content of the regular file at a path, if there is one. */
  function At(dir: seq<Entry>, path: seq<string>): Option<string>
    decreases |path|
  {
    if path == [] then None else
    match Find(dir, path[0])
    case Some(File(content)) => if |path| == 1 then Some(content) else None
    case Some(Dir(entries)) => At(entries, path[1..])
    case None => None
  }

  // ---------- moving ----------

  datatype Outcome = Outcome(dir: seq<Entry>, ok: bool)

  /** `rename` onto a name: a file replaces a file, a directory an empty directory, and nothing else replaces anything. */
  predicate Replaces(node: Node, there: Option<Node>) {
    match there
    case None => true
    case Some(File(_)) => node.File?
    case Some(Dir(entries)) => node.Dir? && entries == []
  }

  function Rename(dir: seq<Entry>, name: string, node: Node): Outcome {
    if Replaces(node, Find(dir, name)) then Outcome(Put(dir, name, node), true) else Outcome(dir, false)
  }

  function Weight(entries: seq<Entry>): nat {
    if entries == [] then 0
    else Weight(entries[..|entries| - 1]) + NodeWeight(entries[|entries| - 1].node)
  }

  function NodeWeight(node: Node): nat {
    match node case File(_) => 1 case Dir(entries) => 1 + Weight(entries)
  }

  /** `move_merge` of one node to a name in a directory. */
  function Move(dir: seq<Entry>, name: string, node: Node): Outcome
    decreases NodeWeight(node), 0
  {
    match (Find(dir, name), node)
    case (None, _) => Outcome(Put(dir, name, node), true)
    case (Some(Dir(inner)), Dir(entries)) =>
      var merged := MoveAll(inner, entries);
      Outcome(Put(dir, name, Dir(merged.dir)), merged.ok)
    case _ => Rename(dir, Aside(name), node)
  }

  /** Every entry in turn; the first failure ends it. */
  function MoveAll(dir: seq<Entry>, entries: seq<Entry>): Outcome
    decreases Weight(entries), |entries|
  {
    if entries == [] then Outcome(dir, true) else
    var before, last := MoveAll(dir, entries[..|entries| - 1]), entries[|entries| - 1];
    if before.ok then Move(before.dir, last.name, last.node) else before
  }

  // ---------- trees a harness leaves behind ----------

  /** No directory lists a name twice. */
  predicate Distinct(entries: seq<Entry>)
    decreases Weight(entries), |entries|
  {
    entries == [] ||
    (var before, last := entries[..|entries| - 1], entries[|entries| - 1];
     Distinct(before) && DistinctNode(last.node) && Find(before, last.name).None?)
  }

  predicate DistinctNode(node: Node)
    decreases NodeWeight(node), 0
  {
    node.Dir? ==> Distinct(node.entries)
  }

  /** No name at any level ends with the suffix. */
  predicate SuffixFree(entries: seq<Entry>)
    decreases Weight(entries), |entries|
  {
    entries == [] ||
    (var before, last := entries[..|entries| - 1], entries[|entries| - 1];
     SuffixFree(before) && SuffixFreeNode(last.node) && !IsAside(last.name))
  }

  predicate SuffixFreeNode(node: Node)
    decreases NodeWeight(node), 0
  {
    node.Dir? ==> SuffixFree(node.entries)
  }

  /** No directory lists a name twice, and no name at any level ends with the suffix. */
  predicate Tidy(entries: seq<Entry>) {
    Distinct(entries) && SuffixFree(entries)
  }

  predicate TidyNode(node: Node) {
    DistinctNode(node) && SuffixFreeNode(node)
  }

  /** A node that cannot be set aside under its name: something else is there that it would replace, or that stops it. */
  predicate Blocked(there: Option<Node>, node: Node) {
    !Replaces(node, there) || (there.Some? && there.value.File? && there.value != node)
  }

  /** A node moved to a name meets something it cannot share that name with, and the name set aside for it is taken. */
  predicate Clash(dir: seq<Entry>, name: string, node: Node)
    decreases NodeWeight(node), 0
  {
    match (Find(dir, name), node)
    case (None, _) => false
    case (Some(Dir(inner)), Dir(entries)) => Clashes(inner, entries)
    case _ => Blocked(Find(dir, Aside(name)), node)
  }

  /** Some entry clashes with the directory as the entries before it leave it. */
  predicate Clashes(dir: seq<Entry>, entries: seq<Entry>)
    decreases Weight(entries), |entries|
  {
    entries != [] &&
    var before, last := entries[..|entries| - 1], entries[|entries| - 1];
    Clashes(dir, before) || Clash(MoveAll(dir, before).dir, last.name, last.node)
  }

  /** Every regular file is where it was, with what it held. */
  ghost predicate KeepsFiles(dir: seq<Entry>, after: seq<Entry>) {
    forall path :: At(dir, path).Some? ==> At(after, path) == At(dir, path)
  }

  /** The content of the regular file at a path below a node, the empty path being the node itself. */
  function AtNode(node: Node, path: seq<string>): Option<string> {
    match node
    case File(content) => if path == [] then Some(content) else None
    case Dir(entries) => At(entries, path)
  }

  /** Where the file at a path goes when the node under its first name is moved: there, or with one component set aside. */
  function DestinationOf(dir: seq<Entry>, name: string, node: Node, path: seq<string>): seq<string>
    requires path != []
    decreases NodeWeight(node), 0
  {
    match (Find(dir, name), node)
    case (None, _) => path
    case (Some(Dir(inner)), Dir(moved)) => [path[0]] + Destination(inner, moved, path[1..])
    case _ => [Aside(path[0])] + path[1..]
  }

  function Destination(dir: seq<Entry>, entries: seq<Entry>, path: seq<string>): seq<string>
    decreases Weight(entries), |entries|
  {
    if entries == [] || path == [] then path else
    var before, last := entries[..|entries| - 1], entries[|entries| - 1];
    if last.name == path[0] then DestinationOf(MoveAll(dir, before).dir, last.name, last.node, path)
    else Destination(dir, before, path)
  }

  /** Every moved file is at its destination. */
  ghost predicate Arrives(dir: seq<Entry>, entries: seq<Entry>, after: seq<Entry>) {
    forall path :: At(entries, path).Some? ==> At(after, Destination(dir, entries, path)) == At(entries, path)
  }

  ghost predicate NodeArrives(dir: seq<Entry>, name: string, node: Node, after: seq<Entry>) {
    forall path :: path != [] && path[0] == name && AtNode(node, path[1..]).Some? ==>
      At(after, DestinationOf(dir, name, node, path)) == AtNode(node, path[1..])
  }

  // ---------- names ----------

  lemma AsideNames(name: string, other: string)
    ensures IsAside(Aside(name)) && Aside(name) != name
    ensures Aside(name) == Aside(other) <==> name == other
  {
    assert Aside(name)[|name|..] == SUFFIX;
    assert Aside(name)[..|name|] == name;
    assert Aside(other)[..|other|] == other;
    assert |Aside(name)| > |name|;
  }

  // ---------- one move ----------

  /** A move writes to no name but the one it is given and the one set aside for it. */
  lemma MoveElsewhere(dir: seq<Entry>, name: string, node: Node, other: string)
    requires other != name && other != Aside(name)
    ensures Find(Move(dir, name, node).dir, other) == Find(dir, other)
  {
    FindPut(dir, name, node, other);
    FindPut(dir, Aside(name), node, other);
    if Find(dir, name).Some? && Find(dir, name).value.Dir? && node.Dir? {
      FindPut(dir, name, Dir(MoveAll(Find(dir, name).value.entries, node.entries).dir), other);
    }
  }

  /** What a move does to those two names depends on what they hold and on nothing else. */
  lemma MoveIsLocal(dir: seq<Entry>, other: seq<Entry>, name: string, node: Node)
    requires Find(dir, name) == Find(other, name) && Find(dir, Aside(name)) == Find(other, Aside(name))
    ensures Move(dir, name, node).ok == Move(other, name, node).ok
    ensures Find(Move(dir, name, node).dir, name) == Find(Move(other, name, node).dir, name)
    ensures Find(Move(dir, name, node).dir, Aside(name)) == Find(Move(other, name, node).dir, Aside(name))
  {
    AsideNames(name, name);
    forall d: seq<Entry>, n: Node, k: string, v: string { FindPut(d, k, n, v); }
  }

  ghost predicate SameAt(dir: seq<Entry>, after: seq<Entry>, name: string) {
    Find(dir, name) == Find(after, name) && Find(dir, Aside(name)) == Find(after, Aside(name))
  }

  /** Whether a name is one a move of these entries may write to. */
  predicate Written(entries: seq<Entry>, name: string) {
    exists e :: e in entries && (name == e.name || name == Aside(e.name))
  }

  lemma {:induction false} MoveAllElsewhere(dir: seq<Entry>, entries: seq<Entry>, name: string)
    requires !Written(entries, name)
    ensures Find(MoveAll(dir, entries).dir, name) == Find(dir, name)
    decreases |entries|
  {
    if entries != [] {
      var before, last := entries[..|entries| - 1], entries[|entries| - 1];
      assert last in entries && forall e :: e in before ==> e in entries;
      MoveAllElsewhere(dir, before, name);
      MoveElsewhere(MoveAll(dir, before).dir, last.name, last.node, name);
    }
  }

  /** The last of tidy entries finds what it would find if it were moved alone. */
  lemma LastFindsItsOwn(dir: seq<Entry>, before: seq<Entry>, last: Entry)
    requires Tidy(before) && !IsAside(last.name) && Find(before, last.name).None?
    ensures SameAt(dir, MoveAll(dir, before).dir, last.name)
  {
    NamesApart(before, last);
    MoveAllElsewhere(dir, before, last.name);
    MoveAllElsewhere(dir, before, Aside(last.name));
  }

  /** Moving tidy entries succeeds exactly when each of them could be moved alone. */
  lemma {:induction false} MoveAllOk(dir: seq<Entry>, entries: seq<Entry>)
    requires Tidy(entries)
    ensures MoveAll(dir, entries).ok <==> forall e :: e in entries ==> Move(dir, e.name, e.node).ok
    decreases |entries|
  {
    if entries != [] {
      var before, last := entries[..|entries| - 1], entries[|entries| - 1];
      assert entries == before + [last];
      MoveAllOk(dir, before);
      LastFindsItsOwn(dir, before, last);
      MoveIsLocal(MoveAll(dir, before).dir, dir, last.name, last.node);
    }
  }

  /** Each of them leaves, under its two names, what it would leave if it were moved alone. */
  lemma {:induction false} MoveAllEntry(dir: seq<Entry>, entries: seq<Entry>, e: Entry)
    requires Tidy(entries) && e in entries && MoveAll(dir, entries).ok
    ensures SameAt(Move(dir, e.name, e.node).dir, MoveAll(dir, entries).dir, e.name)
    decreases |entries|
  {
    var before, last := entries[..|entries| - 1], entries[|entries| - 1];
    var half := MoveAll(dir, before).dir;
    if e == last {
      LastFindsItsOwn(dir, before, last);
      MoveIsLocal(half, dir, last.name, last.node);
    } else {
      assert entries == before + [last];
      MoveAllEntry(dir, before, e);
      NamesApart(before, last);
      MoveElsewhere(half, last.name, last.node, e.name);
      MoveElsewhere(half, last.name, last.node, Aside(e.name));
    }
  }

  lemma {:induction false} FindSnoc(dir: seq<Entry>, last: Entry, name: string)
    ensures Find(dir + [last], name)
         == if Find(dir, name).Some? then Find(dir, name) else if last.name == name then Some(last.node) else None
  {
    if dir != [] {
      assert (dir + [last])[1..] == dir[1..] + [last];
      FindSnoc(dir[1..], last, name);
    } else {
      assert [last][1..] == [];
      assert [] + [last] == [last];
    }
  }

  /** Tidy entries are found under their names, and none has the suffix. */
  lemma {:induction false} TidyNames(entries: seq<Entry>)
    requires Tidy(entries)
    ensures forall e :: e in entries ==>
      !IsAside(e.name) && Find(entries, e.name) == Some(e.node) && TidyNode(e.node)
    ensures forall name :: Find(entries, name).Some? ==> Entry(name, Find(entries, name).value) in entries
    decreases |entries|
  {
    if entries != [] {
      var before, last := entries[..|entries| - 1], entries[|entries| - 1];
      TidyNames(before);
      assert entries == before + [last];
      forall name { FindSnoc(before, last, name); }
    }
  }

  lemma NamesApart(before: seq<Entry>, last: Entry)
    requires Tidy(before) && !IsAside(last.name) && Find(before, last.name).None?
    ensures forall e :: e in before ==> e.name != last.name && Aside(e.name) != last.name
    ensures forall e :: e in before ==> e.name != Aside(last.name) && Aside(e.name) != Aside(last.name)
  {
    TidyNames(before);
    AsideNames(last.name, last.name);
    forall e | e in before
      ensures Aside(e.name) != last.name && e.name != Aside(last.name) && Aside(e.name) != Aside(last.name) {
      AsideNames(e.name, last.name);
    }
  }

  // ---------- when every file is kept ----------

  /** Reading below a name is reading below what the name holds. */
  lemma AtBelow(dir: seq<Entry>, other: seq<Entry>, path: seq<string>)
    requires path != [] ==> Find(dir, path[0]) == Find(other, path[0])
    ensures At(dir, path) == At(other, path)
  {}

  /** A merged directory keeps its files exactly when the directories under the name do. */
  lemma KeepsBelow(dir: seq<Entry>, name: string, inner: seq<Entry>, merged: seq<Entry>)
    requires Find(dir, name) == Some(Dir(inner))
    ensures KeepsFiles(dir, Put(dir, name, Dir(merged))) <==> KeepsFiles(inner, merged)
  {
    var after := Put(dir, name, Dir(merged));
    forall k: string { FindPut(dir, name, Dir(merged), k); }
    if KeepsFiles(dir, after) {
      forall path | At(inner, path).Some? ensures At(merged, path) == At(inner, path) {
        assert ([name] + path)[1..] == path;
        assert At(dir, [name] + path).Some?;
      }
    }
    if KeepsFiles(inner, merged) {
      forall path | At(dir, path).Some? ensures At(after, path) == At(dir, path) {
        if path[0] != name {
          AtBelow(dir, after, path);
        }
      }
    }
  }

  /** Setting a node aside keeps every file exactly when nothing blocks it. */
  lemma AsideKeeps(dir: seq<Entry>, aside: string, node: Node)
    ensures Rename(dir, aside, node).ok && KeepsFiles(dir, Rename(dir, aside, node).dir) <==> !Blocked(Find(dir, aside), node)
  {
    if Replaces(node, Find(dir, aside)) {
      var after := Put(dir, aside, node);
      forall k: string { FindPut(dir, aside, node, k); }
      if Blocked(Find(dir, aside), node) {
        assert At(dir, [aside]).Some? && At(after, [aside]) != At(dir, [aside]);
      } else {
        forall path | At(dir, path).Some? ensures At(after, path) == At(dir, path) {
          if path[0] != aside {
            AtBelow(dir, after, path);
          }
        }
      }
    }
  }

  lemma {:induction false} WeightOfEntry(entries: seq<Entry>, e: Entry)
    requires e in entries
    ensures NodeWeight(e.node) <= Weight(entries)
    decreases |entries|
  {
    var before, last := entries[..|entries| - 1], entries[|entries| - 1];
    assert entries == before + [last];
    if e in before {
      WeightOfEntry(before, e);
    }
  }

  lemma KeepsOnwards(dir: seq<Entry>, between: seq<Entry>, after: seq<Entry>)
    requires KeepsFiles(dir, between) && KeepsFiles(between, after)
    ensures KeepsFiles(dir, after)
  {
    forall path | At(dir, path).Some? ensures At(after, path) == At(dir, path) {
      assert At(between, path) == At(dir, path);
    }
  }

  /** Below a name that an entry does not have, a longer list of entries reads and goes where the shorter one does. */
  lemma OtherNames(dir: seq<Entry>, before: seq<Entry>, last: Entry, path: seq<string>)
    requires path != [] && path[0] != last.name
    ensures At(before + [last], path) == At(before, path)
    ensures Destination(dir, before + [last], path) == Destination(dir, before, path)
  {
    FindSnoc(before, last, path[0]);
    AtBelow(before + [last], before, path);
    assert (before + [last])[..|before|] == before;
  }

  lemma LastName(dir: seq<Entry>, before: seq<Entry>, last: Entry, path: seq<string>)
    requires path != [] && path[0] == last.name && Find(before, last.name).None?
    ensures At(before + [last], path) == AtNode(last.node, path[1..])
    ensures Destination(dir, before + [last], path)
         == DestinationOf(MoveAll(dir, before).dir, last.name, last.node, path)
  {
    FindSnoc(before, last, path[0]);
    assert (before + [last])[..|before|] == before;
  }

  /** A move without a clash succeeds, keeps every file that was there, and brings every moved one to its destination. */
  lemma {:induction false} MoveConserves(dir: seq<Entry>, name: string, node: Node)
    requires DistinctNode(node) && !Clash(dir, name, node)
    ensures Move(dir, name, node).ok && KeepsFiles(dir, Move(dir, name, node).dir)
    ensures NodeArrives(dir, name, node, Move(dir, name, node).dir)
    decreases NodeWeight(node), 0
  {
    match (Find(dir, name), node)
    case (None, _) => NewNameConserves(dir, name, node);
    case (Some(Dir(inner)), Dir(moved)) =>
      MergeConserves(inner, moved);
      KeepsBelow(dir, name, inner, MoveAll(inner, moved).dir);
      MergedArrives(dir, name, inner, moved);
    case _ =>
      AsideKeeps(dir, Aside(name), node);
      AsideArrives(dir, name, node);
  }

  lemma NewNameConserves(dir: seq<Entry>, name: string, node: Node)
    requires Find(dir, name).None?
    ensures KeepsFiles(dir, Put(dir, name, node)) && NodeArrives(dir, name, node, Put(dir, name, node))
  {
    forall k: string { FindPut(dir, name, node, k); }
    forall path | At(dir, path).Some? ensures At(Put(dir, name, node), path) == At(dir, path) {
      AtBelow(dir, Put(dir, name, node), path);
    }
  }

  lemma MergedArrives(dir: seq<Entry>, name: string, inner: seq<Entry>, moved: seq<Entry>)
    requires Find(dir, name) == Some(Dir(inner)) && Arrives(inner, moved, MoveAll(inner, moved).dir)
    ensures NodeArrives(dir, name, Dir(moved), Put(dir, name, Dir(MoveAll(inner, moved).dir)))
  {
    var merged := MoveAll(inner, moved).dir;
    FindPut(dir, name, Dir(merged), name);
    forall path | path != [] && path[0] == name && AtNode(Dir(moved), path[1..]).Some?
      ensures At(Put(dir, name, Dir(merged)), DestinationOf(dir, name, Dir(moved), path)) == AtNode(Dir(moved), path[1..]) {
      var below := Destination(inner, moved, path[1..]);
      assert ([path[0]] + below)[1..] == below;
      assert At(moved, path[1..]).Some?;
    }
  }

  lemma AsideArrives(dir: seq<Entry>, name: string, node: Node)
    requires Find(dir, name).Some? && !(Find(dir, name).value.Dir? && node.Dir?)
    ensures NodeArrives(dir, name, node, Put(dir, Aside(name), node))
  {
    FindPut(dir, Aside(name), node, Aside(name));
    forall path | path != [] && path[0] == name && AtNode(node, path[1..]).Some?
      ensures At(Put(dir, Aside(name), node), DestinationOf(dir, name, node, path)) == AtNode(node, path[1..]) {
      assert ([Aside(name)] + path[1..])[1..] == path[1..];
    }
  }

  lemma {:induction false} MergeConserves(dir: seq<Entry>, entries: seq<Entry>)
    requires Distinct(entries) && !Clashes(dir, entries)
    ensures MoveAll(dir, entries).ok && KeepsFiles(dir, MoveAll(dir, entries).dir)
    ensures Arrives(dir, entries, MoveAll(dir, entries).dir)
    decreases Weight(entries), |entries|
  {
    if entries != [] {
      var before, last := entries[..|entries| - 1], entries[|entries| - 1];
      MergeConserves(dir, before);
      var half := MoveAll(dir, before).dir;
      MoveConserves(half, last.name, last.node);
      KeepsOnwards(dir, half, MoveAll(dir, entries).dir);
      OneMoreArrives(dir, before, last);
      assert entries == before + [last];
    }
  }

  lemma OneMoreArrives(dir: seq<Entry>, before: seq<Entry>, last: Entry)
    requires Find(before, last.name).None? && MoveAll(dir, before).ok
    requires Arrives(dir, before, MoveAll(dir, before).dir)
    requires var half := MoveAll(dir, before).dir;
      var one := Move(half, last.name, last.node).dir;
      KeepsFiles(half, one) && NodeArrives(half, last.name, last.node, one)
    ensures Arrives(dir, before + [last], Move(MoveAll(dir, before).dir, last.name, last.node).dir)
  {
    var half := MoveAll(dir, before).dir;
    var one := Move(half, last.name, last.node).dir;
    forall path | At(before + [last], path).Some?
      ensures At(one, Destination(dir, before + [last], path)) == At(before + [last], path) {
      if path[0] == last.name {
        LastName(dir, before, last, path);
      } else {
        OtherNames(dir, before, last, path);
        assert At(half, Destination(dir, before, path)) == At(before, path);
      }
    }
  }

  // ---------- where files come from ----------

  ghost predicate OneAside(path: seq<string>, place: seq<string>) {
    place == path || exists i :: 0 <= i < |path| && place == path[i := Aside(path[i])]
  }

  lemma {:induction false} DestinationIsNear(dir: seq<Entry>, entries: seq<Entry>, path: seq<string>)
    ensures OneAside(path, Destination(dir, entries, path))
    decreases Weight(entries), |entries|
  {
    if entries != [] && path != [] {
      var before, last := entries[..|entries| - 1], entries[|entries| - 1];
      if last.name != path[0] {
        DestinationIsNear(dir, before, path);
      } else {
        NodeDestinationIsNear(MoveAll(dir, before).dir, last.name, last.node, path);
      }
    }
  }

  lemma {:induction false} NodeDestinationIsNear(dir: seq<Entry>, name: string, node: Node, path: seq<string>)
    requires path != []
    ensures OneAside(path, DestinationOf(dir, name, node, path))
    decreases NodeWeight(node), 0
  {
    match (Find(dir, name), node)
    case (None, _) =>
    case (Some(Dir(inner)), Dir(moved)) =>
      DestinationIsNear(inner, moved, path[1..]);
      NearBelow(path, Destination(inner, moved, path[1..]));
    case _ => assert [Aside(path[0])] + path[1..] == path[0 := Aside(path[0])];
  }

  lemma NearBelow(path: seq<string>, below: seq<string>)
    requires path != [] && OneAside(path[1..], below)
    ensures OneAside(path, [path[0]] + below)
  {
    if below != path[1..] {
      var i :| 0 <= i < |path| - 1 && below == path[1..][i := Aside(path[1..][i])];
      assert [path[0]] + below == path[i + 1 := Aside(path[i + 1])];
    } else {
      assert [path[0]] + below == path;
    }
  }

  /** Some moved file has this destination and this content. */
  ghost predicate WasMoved(dir: seq<Entry>, entries: seq<Entry>, place: seq<string>, found: Option<string>) {
    exists path :: Destination(dir, entries, path) == place && At(entries, path) == found
  }

  ghost predicate NodeWasMoved(dir: seq<Entry>, name: string, node: Node, place: seq<string>, found: Option<string>) {
    exists path :: path != [] && path[0] == name && DestinationOf(dir, name, node, path) == place
                   && AtNode(node, path[1..]) == found
  }

  lemma WasMovedOnwards(dir: seq<Entry>, before: seq<Entry>, last: Entry, place: seq<string>, found: Option<string>)
    requires found.Some? && WasMoved(dir, before, place, found) && Find(before, last.name).None?
    ensures WasMoved(dir, before + [last], place, found)
  {
    var path :| Destination(dir, before, path) == place && At(before, path) == found;
    OtherNames(dir, before, last, path);
    assert Destination(dir, before + [last], path) == place && At(before + [last], path) == found;
  }

  lemma LastWasMoved(dir: seq<Entry>, before: seq<Entry>, last: Entry, place: seq<string>, found: Option<string>)
    requires NodeWasMoved(MoveAll(dir, before).dir, last.name, last.node, place, found) && Find(before, last.name).None?
    ensures WasMoved(dir, before + [last], place, found)
  {
    var half := MoveAll(dir, before).dir;
    var path :| path != [] && path[0] == last.name && DestinationOf(half, last.name, last.node, path) == place
                && AtNode(last.node, path[1..]) == found;
    LastName(dir, before, last, path);
    assert Destination(dir, before + [last], path) == place && At(before + [last], path) == found;
  }

  /** Without clashes, every file found afterwards was there before or has been moved there. */
  lemma {:induction false} NothingElseAppears(dir: seq<Entry>, entries: seq<Entry>, place: seq<string>)
    requires Distinct(entries) && !Clashes(dir, entries) && At(MoveAll(dir, entries).dir, place).Some?
    ensures var found := At(MoveAll(dir, entries).dir, place);
      At(dir, place) == found || WasMoved(dir, entries, place, found)
    decreases Weight(entries), |entries|
  {
    if entries != [] {
      var before, last := entries[..|entries| - 1], entries[|entries| - 1];
      assert entries == before + [last];
      MergeConserves(dir, before);
      var half, found := MoveAll(dir, before).dir, At(MoveAll(dir, entries).dir, place);
      MovedAlone(half, last.name, last.node, place);
      if At(half, place) == found {
        NothingElseAppears(dir, before, place);
        if WasMoved(dir, before, place, found) {
          WasMovedOnwards(dir, before, last, place, found);
        }
      } else {
        LastWasMoved(dir, before, last, place, found);
      }
    }
  }

  lemma {:induction false} MovedAlone(dir: seq<Entry>, name: string, node: Node, place: seq<string>)
    requires DistinctNode(node) && !Clash(dir, name, node) && At(Move(dir, name, node).dir, place).Some?
    ensures var found := At(Move(dir, name, node).dir, place);
      At(dir, place) == found || NodeWasMoved(dir, name, node, place, found)
    decreases NodeWeight(node), 0
  {
    var after := Move(dir, name, node).dir;
    match (Find(dir, name), node)
    case (None, _) =>
      FindPut(dir, name, node, place[0]);
      if place[0] == name {
        assert DestinationOf(dir, name, node, place) == place && AtNode(node, place[1..]) == At(after, place);
      } else {
        AtBelow(after, dir, place);
      }
    case (Some(Dir(inner)), Dir(moved)) =>
      FindPut(dir, name, Dir(MoveAll(inner, moved).dir), place[0]);
      if place[0] != name {
        AtBelow(after, dir, place);
      } else {
        NothingElseAppears(inner, moved, place[1..]);
        MovedBelow(dir, name, inner, moved, place, At(after, place));
      }
    case _ =>
      AsideKeeps(dir, Aside(name), node);
      FindPut(dir, Aside(name), node, place[0]);
      if place[0] != Aside(name) {
        AtBelow(after, dir, place);
      } else {
        var path := [name] + place[1..];
        assert path[1..] == place[1..] && DestinationOf(dir, name, node, path) == place;
      }
  }

  lemma MovedBelow(dir: seq<Entry>, name: string, inner: seq<Entry>, moved: seq<Entry>, place: seq<string>, found: Option<string>)
    requires Find(dir, name) == Some(Dir(inner)) && place != [] && place[0] == name && found.Some?
    requires At(inner, place[1..]) == found || WasMoved(inner, moved, place[1..], found)
    ensures At(dir, place) == found || NodeWasMoved(dir, name, Dir(moved), place, found)
  {
    if WasMoved(inner, moved, place[1..], found) {
      var path :| Destination(inner, moved, path) == place[1..] && At(moved, path) == found;
      var whole := [name] + path;
      assert whole[1..] == path;
      assert DestinationOf(dir, name, Dir(moved), whole) == place && AtNode(Dir(moved), whole[1..]) == found;
    }
  }

  // ---------- a clash costs a file ----------

  /** Something else stands at a place that belongs to a file of the directory, or to a moved one. */
  ghost predicate LostAt(dir: seq<Entry>, entries: seq<Entry>, after: seq<Entry>, place: seq<string>) {
    && At(after, place).Some?
    && ((At(dir, place).Some? && At(dir, place) != At(after, place))
        || exists path :: At(entries, path).Some? && Destination(dir, entries, path) == place && At(entries, path) != At(after, place))
  }

  /** A place that the move of a name can write to: below the name, or exactly the name set aside for it. */
  predicate Reached(name: string, place: seq<string>) {
    (|place| >= 2 && place[0] == name) || place == [Aside(name)]
  }

  lemma LostBreaks(dir: seq<Entry>, entries: seq<Entry>, after: seq<Entry>, place: seq<string>)
    requires LostAt(dir, entries, after, place)
    ensures !(KeepsFiles(dir, after) && Arrives(dir, entries, after))
  {
    if KeepsFiles(dir, after) {
      var path :| At(entries, path).Some? && Destination(dir, entries, path) == place && At(entries, path) != At(after, place);
    }
  }

  /** A move of another name leaves a file where it is, unless that is the very name it sets aside. */
  lemma OthersStay(dir: seq<Entry>, name: string, node: Node, place: seq<string>)
    requires Move(dir, name, node).ok && At(dir, place).Some? && place != [Aside(name)]
    requires place[0] != name || |place| == 1
    ensures At(Move(dir, name, node).dir, place) == At(dir, place)
  {
    if place[0] != name && place[0] != Aside(name) {
      MoveElsewhere(dir, name, node, place[0]);
      AtBelow(Move(dir, name, node).dir, dir, place);
    } else {
      AsideNames(name, name);
      HeldStays(dir, name, node, place[0]);
      AtBelow(Move(dir, name, node).dir, dir, place);
    }
  }

  /** A move that succeeds leaves alone a file under its own name, and a directory that is not empty under the other. */
  lemma HeldStays(dir: seq<Entry>, name: string, node: Node, held: string)
    requires Move(dir, name, node).ok && Aside(name) != name && Find(dir, held).Some?
    requires held == name ==> Find(dir, held).value.File?
    requires held != name ==> held == Aside(name) && Find(dir, held).value.Dir? && Find(dir, held).value.entries != []
    ensures Find(Move(dir, name, node).dir, held) == Find(dir, held)
  {
    FindPut(dir, name, node, held);
    FindPut(dir, Aside(name), node, held);
    if Find(dir, name).Some? && Find(dir, name).value.Dir? && node.Dir? {
      FindPut(dir, name, Dir(MoveAll(Find(dir, name).value.entries, node.entries).dir), held);
    }
  }

  /** What was lost stays lost, whatever entries of other names are moved after it. */
  lemma StaysLost(dir: seq<Entry>, before: seq<Entry>, last: Entry, name: string, place: seq<string>)
    requires MoveAll(dir, before).ok && Move(MoveAll(dir, before).dir, last.name, last.node).ok
    requires LostAt(dir, before, MoveAll(dir, before).dir, place) && Reached(name, place) && name != last.name
    requires Find(before, last.name).None?
    ensures LostAt(dir, before + [last], Move(MoveAll(dir, before).dir, last.name, last.node).dir, place)
  {
    var half := MoveAll(dir, before).dir;
    AsideNames(name, last.name);
    OthersStay(half, last.name, last.node, place);
    var after := Move(half, last.name, last.node).dir;
    if !(At(dir, place).Some? && At(dir, place) != At(after, place)) {
      var path :| At(before, path).Some? && Destination(dir, before, path) == place && At(before, path) != At(half, place);
      OtherNames(dir, before, last, path);
      assert At(before + [last], path).Some? && Destination(dir, before + [last], path) == place
          && At(before + [last], path) != At(after, place);
    }
  }

  /** A move that clashes and still succeeds puts something else where a file was, or where a moved file belongs. */
  ghost predicate NodeLostAt(dir: seq<Entry>, name: string, node: Node, after: seq<Entry>, place: seq<string>) {
    && At(after, place).Some? && Reached(name, place)
    && ((At(dir, place).Some? && At(dir, place) != At(after, place))
        || exists path :: path != [] && path[0] == name && AtNode(node, path[1..]).Some?
                          && DestinationOf(dir, name, node, path) == place && AtNode(node, path[1..]) != At(after, place))
  }

  lemma {:induction false} MoveLoses(dir: seq<Entry>, name: string, node: Node) returns (place: seq<string>)
    requires DistinctNode(node) && Clash(dir, name, node) && Move(dir, name, node).ok
    ensures NodeLostAt(dir, name, node, Move(dir, name, node).dir, place)
    decreases NodeWeight(node), 0
  {
    if Find(dir, name).value.Dir? && node.Dir? {
      var inner, moved := Find(dir, name).value.entries, node.entries;
      var cause, below := ClashLoses(inner, moved);
      place := [name] + below;
      LostBelow(dir, name, inner, moved, below);
    } else {
      place := [Aside(name)];
      FindPut(dir, Aside(name), node, Aside(name));
    }
  }

  lemma LostBelow(dir: seq<Entry>, name: string, inner: seq<Entry>, moved: seq<Entry>, below: seq<string>)
    requires Find(dir, name) == Some(Dir(inner)) && below != []
    requires LostAt(inner, moved, MoveAll(inner, moved).dir, below)
    ensures NodeLostAt(dir, name, Dir(moved), Put(dir, name, Dir(MoveAll(inner, moved).dir)), [name] + below)
  {
    var merged, place := MoveAll(inner, moved).dir, [name] + below;
    var after := Put(dir, name, Dir(merged));
    FindPut(dir, name, Dir(merged), name);
    assert place[1..] == below;
    assert At(after, place) == At(merged, below) && At(dir, place) == At(inner, below);
    if !(At(inner, below).Some? && At(inner, below) != At(merged, below)) {
      var path :| At(moved, path).Some? && Destination(inner, moved, path) == below && At(moved, path) != At(merged, below);
      var whole := [name] + path;
      assert whole[1..] == path && DestinationOf(dir, name, Dir(moved), whole) == place;
      assert AtNode(Dir(moved), whole[1..]).Some? && AtNode(Dir(moved), whole[1..]) != At(after, place);
    }
  }

  lemma {:induction false} ClashLoses(dir: seq<Entry>, entries: seq<Entry>) returns (cause: string, place: seq<string>)
    requires Distinct(entries) && Clashes(dir, entries) && MoveAll(dir, entries).ok
    ensures LostAt(dir, entries, MoveAll(dir, entries).dir, place) && Find(entries, cause).Some? && Reached(cause, place)
    decreases Weight(entries), |entries|
  {
    var before, last := entries[..|entries| - 1], entries[|entries| - 1];
    assert entries == before + [last];
    if Clashes(dir, before) {
      cause, place := ClashLoses(dir, before);
      FindSnoc(before, last, cause);
      StaysLost(dir, before, last, cause, place);
    } else {
      cause := last.name;
      place := MoveLoses(MoveAll(dir, before).dir, last.name, last.node);
      FindSnoc(before, last, cause);
      LastLoses(dir, before, last, place);
    }
  }

  lemma LastLoses(dir: seq<Entry>, before: seq<Entry>, last: Entry, place: seq<string>)
    requires Distinct(before) && !Clashes(dir, before) && Find(before, last.name).None?
    requires var half := MoveAll(dir, before).dir;
      NodeLostAt(half, last.name, last.node, Move(half, last.name, last.node).dir, place)
    ensures LostAt(dir, before + [last], Move(MoveAll(dir, before).dir, last.name, last.node).dir, place)
  {
    var half := MoveAll(dir, before).dir;
    var after := Move(half, last.name, last.node).dir;
    if At(half, place).Some? && At(half, place) != At(after, place) {
      NothingElseAppears(dir, before, place);
      if At(dir, place) != At(half, place) {
        WasMovedOnwards(dir, before, last, place, At(half, place));
        var path :| Destination(dir, before + [last], path) == place && At(before + [last], path) == At(half, place);
      }
    } else {
      var path :| path != [] && path[0] == last.name && AtNode(last.node, path[1..]).Some?
        && DestinationOf(half, last.name, last.node, path) == place && AtNode(last.node, path[1..]) != At(after, place);
      LastName(dir, before, last, path);
      assert At(before + [last], path).Some? && Destination(dir, before + [last], path) == place;
    }
  }

  /**
   Reconciling succeeds, leaves every file of the real home where and what it was and brings every moved file to its
   destination, exactly when no entry clashes with the directory as the entries before it leave it.
   */
  lemma MergeConservesExactly(dir: seq<Entry>, entries: seq<Entry>)
    requires Distinct(entries)
    ensures MoveAll(dir, entries).ok && KeepsFiles(dir, MoveAll(dir, entries).dir)
            && Arrives(dir, entries, MoveAll(dir, entries).dir)
        <==> !Clashes(dir, entries)
  {
    if !Clashes(dir, entries) {
      MergeConserves(dir, entries);
    } else if MoveAll(dir, entries).ok {
      var cause, place := ClashLoses(dir, entries);
      LostBreaks(dir, entries, MoveAll(dir, entries).dir, place);
    }
  }

  // ---------- names without the suffix ----------

  lemma ClashIsLocal(dir: seq<Entry>, other: seq<Entry>, name: string, node: Node)
    requires SameAt(dir, other, name)
    ensures Clash(dir, name, node) == Clash(other, name, node)
  {
  }

  /**
   When no made name ends with the suffix the order of the listing does not matter, and the clashes can be read off the two
   trees as they stand: some entry clashes with the directory by itself.
   */
  lemma {:induction false} TidyClashesAreInPlace(dir: seq<Entry>, entries: seq<Entry>)
    requires Tidy(entries)
    ensures Clashes(dir, entries) <==> exists e :: e in entries && Clash(dir, e.name, e.node)
    decreases |entries|
  {
    if entries != [] {
      var before, last := entries[..|entries| - 1], entries[|entries| - 1];
      assert entries == before + [last];
      TidyClashesAreInPlace(dir, before);
      LastFindsItsOwn(dir, before, last);
      ClashIsLocal(dir, MoveAll(dir, before).dir, last.name, last.node);
    }
  }

  lemma {:induction false} SuffixFreeNames(entries: seq<Entry>)
    requires SuffixFree(entries)
    ensures forall name :: Find(entries, name).Some? ==> !IsAside(name) && SuffixFreeNode(Find(entries, name).value)
    decreases |entries|
  {
    if entries != [] {
      var before, last := entries[..|entries| - 1], entries[|entries| - 1];
      SuffixFreeNames(before);
      assert entries == before + [last];
      forall name { FindSnoc(before, last, name); }
    }
  }

  /** When no name of the real home does either, at any level, nothing clashes: reconciling conserves every file. */
  lemma {:induction false} SuffixFreeNeverClashes(dir: seq<Entry>, entries: seq<Entry>)
    requires SuffixFree(dir) && Tidy(entries)
    ensures !Clashes(dir, entries)
    decreases Weight(entries)
  {
    SuffixFreeNames(dir);
    TidyNames(entries);
    forall e | e in entries ensures !Clash(dir, e.name, e.node) {
      AsideNames(e.name, e.name);
      if e.node.Dir? && Find(dir, e.name).Some? && Find(dir, e.name).value.Dir? {
        WeightOfEntry(entries, e);
        SuffixFreeNeverClashes(Find(dir, e.name).value.entries, e.node.entries);
      }
    }
    TidyClashesAreInPlace(dir, entries);
  }

  /** Moving tidy entries keeps every file exactly when moving each of them alone does. */
  lemma KeepsEach(dir: seq<Entry>, entries: seq<Entry>)
    requires Tidy(entries) && MoveAll(dir, entries).ok
    ensures KeepsFiles(dir, MoveAll(dir, entries).dir)
        <==> forall e :: e in entries ==> KeepsFiles(dir, Move(dir, e.name, e.node).dir)
  {
    var after := MoveAll(dir, entries).dir;
    forall e, path | e in entries && path != []
      ensures At(Move(dir, e.name, e.node).dir, path)
           == if path[0] == e.name || path[0] == Aside(e.name) then At(after, path) else At(dir, path)
    {
      MoveAllEntry(dir, entries, e);
      if path[0] == e.name || path[0] == Aside(e.name) {
        AtBelow(Move(dir, e.name, e.node).dir, after, path);
      } else {
        MoveElsewhere(dir, e.name, e.node, path[0]);
        AtBelow(Move(dir, e.name, e.node).dir, dir, path);
      }
    }
    forall path | path != [] && !Written(entries, path[0]) ensures At(after, path) == At(dir, path) {
      MoveAllElsewhere(dir, entries, path[0]);
      AtBelow(after, dir, path);
    }
  }

  lemma {:induction false} MoveKeepsExactly(dir: seq<Entry>, name: string, node: Node)
    requires TidyNode(node)
    ensures Move(dir, name, node).ok && KeepsFiles(dir, Move(dir, name, node).dir) <==> !Clash(dir, name, node)
    decreases NodeWeight(node), 0
  {
    match (Find(dir, name), node)
    case (None, _) =>
      forall k: string { FindPut(dir, name, node, k); }
      forall path | At(dir, path).Some? ensures At(Put(dir, name, node), path) == At(dir, path) {
        AtBelow(dir, Put(dir, name, node), path);
      }
    case (Some(Dir(inner)), Dir(entries)) =>
      KeepsBelow(dir, name, inner, MoveAll(inner, entries).dir);
      MergeKeepsExactly(inner, entries);
    case _ => AsideKeeps(dir, Aside(name), node);
  }

  /** For such names a clash always costs a file of the home itself: the home keeps all of them exactly without clashes. */
  lemma {:induction false} MergeKeepsExactly(dir: seq<Entry>, entries: seq<Entry>)
    requires Tidy(entries)
    ensures MoveAll(dir, entries).ok && KeepsFiles(dir, MoveAll(dir, entries).dir) <==> !Clashes(dir, entries)
    decreases Weight(entries), 1
  {
    TidyNames(entries);
    forall e | e in entries
      ensures Move(dir, e.name, e.node).ok && KeepsFiles(dir, Move(dir, e.name, e.node).dir)
              <==> !Clash(dir, e.name, e.node)
    {
      WeightOfEntry(entries, e);
      MoveKeepsExactly(dir, e.name, e.node);
    }
    TidyClashesAreInPlace(dir, entries);
    MoveAllOk(dir, entries);
    if MoveAll(dir, entries).ok {
      KeepsEach(dir, entries);
    }
  }

  // ---------- the overlay around one run ----------

  /** What an overlay holds under a name: a link into the real home, or something of its own. */
  datatype Shown = Link | Own(node: Node)

  datatype OverlayEntry = OverlayEntry(name: string, shown: Shown)

  predicate Shows(overlay: seq<OverlayEntry>, name: string) {
    exists i :: 0 <= i < |overlay| && overlay[i].name == name
  }

  /** One link for every entry of the real home but one. */
  function Links(home: seq<Entry>, skip: string): seq<OverlayEntry> {
    if home == [] then [] else
    var last := home[|home| - 1];
    Links(home[..|home| - 1], skip) + (if last.name == skip then [] else [OverlayEntry(last.name, Link)])
  }

  /** What goes back to the real home: everything that is no link and not the generated file. */
  function Materialised(overlay: seq<OverlayEntry>, generated: string): seq<Entry> {
    if overlay == [] then [] else
    var last := overlay[|overlay| - 1];
    Materialised(overlay[..|overlay| - 1], generated)
    + (if last.name == generated || last.shown.Link? then [] else [Entry(last.name, last.shown.node)])
  }

  /** Exactly what the overlay holds of its own goes back, the generated file apart. */
  lemma {:induction false} OwnEntriesGoBack(overlay: seq<OverlayEntry>, generated: string, entry: Entry)
    ensures entry in Materialised(overlay, generated)
       <==> OverlayEntry(entry.name, Own(entry.node)) in overlay && entry.name != generated
  {
    if overlay != [] {
      var before, last := overlay[..|overlay| - 1], overlay[|overlay| - 1];
      OwnEntriesGoBack(before, generated, entry);
      assert overlay == before + [last];
    }
  }

  lemma {:induction false} MaterialisedConcat(overlay: seq<OverlayEntry>, more: seq<OverlayEntry>, generated: string)
    ensures Materialised(overlay + more, generated) == Materialised(overlay, generated) + Materialised(more, generated)
  {
    if more == [] {
      assert overlay + more == overlay;
    } else {
      assert (overlay + more)[..|overlay + more| - 1] == overlay + more[..|more| - 1];
      MaterialisedConcat(overlay, more[..|more| - 1], generated);
    }
  }

  lemma {:induction false} LinksDoNotMove(home: seq<Entry>, skip: string)
    ensures Materialised(Links(home, skip), skip) == []
    ensures forall l :: l in Links(home, skip) ==> l.shown.Link? && Find(home, l.name).Some? && l.name != skip
  {
    if home != [] {
      var before, last := home[..|home| - 1], home[|home| - 1];
      assert home == before + [last];
      LinksDoNotMove(before, skip);
      forall name { FindSnoc(before, last, name); }
      MaterialisedConcat(Links(before, skip), Links(home, skip)[|Links(before, skip)|..], skip);
      if last.name != skip {
        OneLinkStays(last.name, skip);
      }
    }
  }

  lemma OneLinkStays(name: string, generated: string)
    ensures Materialised([OverlayEntry(name, Link)], generated) == []
  {
    assert [OverlayEntry(name, Link)][..0] == [];
    assert Materialised([], generated) == [];
  }

  lemma MovedFilesArrive(dir: seq<Entry>, entries: seq<Entry>, path: seq<string>)
    requires Distinct(entries) && !Clashes(dir, entries) && At(entries, path).Some?
    ensures At(MoveAll(dir, entries).dir, Destination(dir, entries, path)) == At(entries, path)
  {
    MergeConserves(dir, entries);
  }

  /**
   A whole run: the overlay is built over `linked`, the harness adds entries of its own and, through the links, leaves the real
   home as `home`; then what it added is moved back. Exactly without clashes the home keeps every file as the harness left it
   and each file the harness made is at its destination; and then no other file appears.
   */
  lemma RunConserves(linked: seq<Entry>, home: seq<Entry>, made: seq<OverlayEntry>, generated: string)
    requires Distinct(Materialised(made, generated))
    ensures var mine := Materialised(made, generated);
      var back := MoveAll(home, Materialised(Links(linked, generated) + made, generated));
      && (back.ok && KeepsFiles(home, back.dir) && Arrives(home, mine, back.dir) <==> !Clashes(home, mine))
      && (!Clashes(home, mine) ==>
            && (forall path :: OneAside(path, Destination(home, mine, path)))
            && (forall place :: At(back.dir, place).Some? ==>
                  At(home, place) == At(back.dir, place) || WasMoved(home, mine, place, At(back.dir, place))))
  {
    var mine := Materialised(made, generated);
    LinksDoNotMove(linked, generated);
    MaterialisedConcat(Links(linked, generated), made, generated);
    assert Materialised(Links(linked, generated) + made, generated) == mine;
    MergeConservesExactly(home, mine);
    var back := MoveAll(home, mine);
    if !Clashes(home, mine) {
      forall path ensures OneAside(path, Destination(home, mine, path)) {
        DestinationIsNear(home, mine, path);
      }
      forall place | At(back.dir, place).Some?
        ensures At(home, place) == At(back.dir, place) || WasMoved(home, mine, place, At(back.dir, place)) {
        NothingElseAppears(home, mine, place);
      }
    }
  }

  /** The guard is needed: a file over a file whose conflict name is taken costs the file that had that name. */
  lemma ATakenConflictNameLosesAFile(name: string, there: string, taken: string, made: string)
    requires made != taken
    ensures var home := [Entry(name, File(there)), Entry(Aside(name), File(taken))];
      MoveAll(home, [Entry(name, File(made))]).ok && !KeepsFiles(home, MoveAll(home, [Entry(name, File(made))]).dir)
  {
    var home := [Entry(name, File(there)), Entry(Aside(name), File(taken))];
    var entries := [Entry(name, File(made))];
    assert entries[..0] == [];
    AsideNames(name, name);
    assert home[1..] == [Entry(Aside(name), File(taken))];
    assert Find(home, Aside(name)) == Some(File(taken)) by { assert home[1..][0].name == Aside(name); }
    AsideKeeps(home, Aside(name), File(made));
  }

  // ---------- the source's loops ----------

  lemma {:induction false} FailureStays(dir: seq<Entry>, entries: seq<Entry>, n: nat)
    requires n <= |entries| && !MoveAll(dir, entries[..n]).ok
    ensures MoveAll(dir, entries) == MoveAll(dir, entries[..n])
    decreases |entries|
  {
    if n < |entries| {
      assert entries[..|entries| - 1][..n] == entries[..n];
      FailureStays(dir, entries[..|entries| - 1], n);
    } else {
      assert entries[..n] == entries;
    }
  }

  /** `move_merge`: recursion over the directory a node may be. */
  method MoveMerge(dir: seq<Entry>, name: string, node: Node) returns (moved: Outcome)
    ensures moved == Move(dir, name, node)
    decreases NodeWeight(node)
  {
    var there := Find(dir, name);
    if there.None? {
      return Outcome(Put(dir, name, node), true);
    }
    if node.File? || there.value.File? {
      return Rename(dir, Aside(name), node);
    }
    var inner, entries := there.value.entries, node.entries;
    var merged := inner;
    for i := 0 to |entries|
      invariant Outcome(merged, true) == MoveAll(inner, entries[..i])
    {
      assert entries[..i + 1][..i] == entries[..i];
      WeightOfEntry(entries, entries[i]);
      var one := MoveMerge(merged, entries[i].name, entries[i].node);
      if !one.ok {
        FailureStays(inner, entries, i + 1);
        return Outcome(Put(dir, name, Dir(one.dir)), false);
      }
      merged := one.dir;
    }
    assert entries[..|entries|] == entries;
    moved := Outcome(Put(dir, name, Dir(merged)), true);
  }

  /** `build_home_overlay`: it fails when the overlay already has a name it would link. */
  method BuildHomeOverlay(home: seq<Entry>, overlay: seq<OverlayEntry>, skip: string)
    returns (built: seq<OverlayEntry>, ok: bool)
    ensures ok ==> built == overlay + Links(home, skip)
    ensures ok <==> forall i :: 0 <= i < |Links(home, skip)| ==>
      !Shows(overlay + Links(home, skip)[..i], Links(home, skip)[i].name)
  {
    built, ok := overlay, true;
    assert overlay + [] == overlay;
    for i := 0 to |home|
      invariant built == overlay + Links(home[..i], skip)
      invariant forall j :: 0 <= j < |Links(home[..i], skip)| ==>
        !Shows(overlay + Links(home[..i], skip)[..j], Links(home[..i], skip)[j].name)
    {
      assert home[..i + 1][..i] == home[..i];
      LinksGrow(home, skip, i + 1);
      LinksGrow(home, skip, i);
      var name := home[i].name;
      if name != skip {
        var links, next := Links(home[..i], skip), Links(home[..i + 1], skip);
        assert next == links + [OverlayEntry(name, Link)];
        if exists k :: 0 <= k < |built| && built[k].name == name {
          assert Links(home, skip)[..|next|][|links|] == next[|links|];
          assert Links(home, skip)[..|links|] == links;
          ok := false;
          return;
        }
        forall j | 0 <= j < |next| ensures !Shows(overlay + next[..j], next[j].name) {
          if j < |links| {
            assert next[..j] == links[..j];
          } else {
            assert next[..j] == links;
          }
        }
        built := built + [OverlayEntry(name, Link)];
      }
    }
    assert home[..|home|] == home;
  }

  lemma {:induction false} LinksGrow(home: seq<Entry>, skip: string, n: nat)
    requires n <= |home|
    ensures |Links(home[..n], skip)| <= |Links(home, skip)|
    ensures Links(home[..n], skip) == Links(home, skip)[..|Links(home[..n], skip)|]
    decreases |home|
  {
    if n == |home| {
      assert home[..n] == home;
    } else {
      assert home[..|home| - 1][..n] == home[..n];
      LinksGrow(home[..|home| - 1], skip, n);
    }
  }

  lemma MoveAllSnoc(dir: seq<Entry>, entries: seq<Entry>, last: Entry)
    ensures MoveAll(dir, entries + [last])
         == if MoveAll(dir, entries).ok then Move(MoveAll(dir, entries).dir, last.name, last.node) else MoveAll(dir, entries)
  {
    assert (entries + [last])[..|entries|] == entries;
  }

  lemma FailedPrefix(dir: seq<Entry>, entries: seq<Entry>, all: seq<Entry>)
    requires entries <= all && !MoveAll(dir, entries).ok
    ensures MoveAll(dir, all) == MoveAll(dir, entries)
  {
    assert all[..|entries|] == entries;
    FailureStays(dir, all, |entries|);
  }

  /** What one more listed entry adds to the entries that go back; those are a prefix of all that do. */
  lemma MaterialisedStep(overlay: seq<OverlayEntry>, i: nat, generated: string)
    requires i < |overlay|
    ensures var done, entry := Materialised(overlay[..i], generated), overlay[i];
      var next := if entry.name != generated && entry.shown.Own? then done + [Entry(entry.name, entry.shown.node)] else done;
      Materialised(overlay[..i + 1], generated) == next && next <= Materialised(overlay, generated)
  {
    assert overlay[..i + 1] == overlay[..i] + [overlay[i]];
    MaterialisedSnoc(overlay[..i], overlay[i], generated);
    PrefixConcat(overlay[..i + 1], overlay[i + 1..], overlay, generated);
  }

  lemma MaterialisedSnoc(overlay: seq<OverlayEntry>, entry: OverlayEntry, generated: string)
    ensures Materialised(overlay + [entry], generated)
         == if entry.name != generated && entry.shown.Own?
            then Materialised(overlay, generated) + [Entry(entry.name, entry.shown.node)] else Materialised(overlay, generated)
  {
    assert (overlay + [entry])[..|overlay|] == overlay;
    assert Materialised(overlay, generated) + [] == Materialised(overlay, generated);
  }

  lemma PrefixConcat(first: seq<OverlayEntry>, rest: seq<OverlayEntry>, overlay: seq<OverlayEntry>, generated: string)
    requires overlay == first + rest
    ensures Materialised(first, generated) <= Materialised(overlay, generated)
  {
    MaterialisedConcat(first, rest, generated);
  }

  function Names(entries: seq<Entry>): seq<string> {
    seq(|entries|, i requires 0 <= i < |entries| => entries[i].name)
  }

  lemma NamesSnoc(entries: seq<Entry>, last: Entry)
    ensures Names(entries + [last]) == Names(entries) + [last.name]
  {
  }

  class RealHome {
    var entries: seq<Entry>

    constructor (entries: seq<Entry>)
      ensures this.entries == entries
    {
      this.entries := entries;
    }

    /** `reconcile_home_overlay`: an overlay that is gone has nothing to move; the first failure ends it. */
    method Reconcile(overlay: Option<seq<OverlayEntry>>, generated: string) returns (moved: seq<string>, ok: bool)
      modifies this
      ensures overlay.None? ==> ok && moved == [] && entries == old(entries)
      ensures overlay.Some? ==> Outcome(entries, ok) == MoveAll(old(entries), Materialised(overlay.value, generated))
      ensures overlay.Some? && ok ==> moved == Names(Materialised(overlay.value, generated))
    {
      moved, ok := [], true;
      if overlay.None? {
        return;
      }
      var shown := overlay.value;
      for i := 0 to |shown|
        invariant ok && Outcome(entries, true) == MoveAll(old(entries), Materialised(shown[..i], generated))
        invariant moved == Names(Materialised(shown[..i], generated))
      {
        MaterialisedStep(shown, i, generated);
        var entry := shown[i];
        if entry.name != generated && entry.shown.Own? {
          ghost var done := Materialised(shown[..i], generated);
          MoveAllSnoc(old(entries), done, Entry(entry.name, entry.shown.node));
          NamesSnoc(done, Entry(entry.name, entry.shown.node));
          var one := MoveMerge(entries, entry.name, entry.shown.node);
          entries := one.dir;
          if !one.ok {
            FailedPrefix(old(entries), done + [Entry(entry.name, entry.shown.node)], Materialised(shown, generated));
            ok := false;
            return;
          }
          moved := moved + [entry.name];
        }
      }
      assert shown[..|shown|] == shown;
    }
  }
}
