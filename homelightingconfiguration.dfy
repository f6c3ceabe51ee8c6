/**
 * The configuration view (js/modules/elements/homelightingconfiguration.js):
 * the list bookkeeping under its DOM. A list node of the view is a `DomList`
 * whose children are the element nodes it shows; `clearDom` empties it of one
 * kind of element, and `_refreshLists` fills it again from the connector's
 * cache. The ids of the collapsed sections are kept in `collapsedIds` and
 * written to the configuration; the "collapsed" CSS class of a section is
 * the set `collapsed` of section ids that carry it.
 */
module HomeConfig {
  import opened Js
  import opened LightEl
  import opened GroupEl
  import opened SceneEl
  import opened Bridge

  // ------------------------------------------------------------ the DOM lists

  /** The element classes `clearDom` can be asked to remove. */
  datatype Kind = LightKind | GroupKind | SceneKind | OtherKind

  /** A child node of a list: one of the three elements, or anything else
      the template put there (a heading, a button). */
  datatype Node =
    | LightNode(light: LightElement)
    | GroupNode(group: LightGroupElement)
    | SceneNode(scene: LightSceneElement)
    | OtherNode(tag: nat)

  /** `node instanceof <class of k>` */
  function KindOf(n: Node): Kind
  {
    match n
    case LightNode(_) => LightKind
    case GroupNode(_) => GroupKind
    case SceneNode(_) => SceneKind
    case OtherNode(_) => OtherKind
  }

  /** A DOM element that holds the nodes of one list. A node is a child at
      most once. */
  class DomList {
    var children: seq<Node>

    constructor (children: seq<Node>)
      ensures this.children == children
    {
      this.children := children;
    }

    /** `removeChild(n)`: the node leaves the list. */
    method RemoveChild(n: Node)
      requires n in children
      modifies this
      ensures children == Without(old(children), n)
    {
      children := Without(children, n);
    }

    /** `append(n)`: the node moves to the end of the list. */
    method Append(n: Node)
      modifies this
      ensures children == Without(old(children), n) + [n]
    {
      children := Without(children, n) + [n];
    }
  }

  /** The nodes that are not of kind `k`, in their order. */
  function OtherKinds(children: seq<Node>, k: Kind): seq<Node>
  {
    if children == [] then []
    else
      var last := children[|children| - 1];
      OtherKinds(children[..|children| - 1], k) + (if KindOf(last) == k then [] else [last])
  }

  /** `OtherKinds` holds exactly the nodes of other kinds. */
  lemma {:induction false} OtherKindsMeaning(children: seq<Node>, k: Kind, n: Node)
    ensures n in OtherKinds(children, k) <==> n in children && KindOf(n) != k
  {
    if children != [] {
      var init := children[..|children| - 1];
      OtherKindsMeaning(init, k, n);
      assert children == init + [children[|children| - 1]];
    }
  }

  /** Filtering distributes over concatenation: the kept nodes of two
      stretches follow each other in the same order. */
  lemma {:induction false} OtherKindsAppend(a: seq<Node>, b: seq<Node>, k: Kind)
    ensures OtherKinds(a + b, k) == OtherKinds(a, k) + OtherKinds(b, k)
  {
    if b == [] {
      assert a + b == a;
    } else {
      var init := b[..|b| - 1];
      var last := b[|b| - 1];
      assert (a + b)[..|a + b| - 1] == a + init;
      assert (a + b)[|a + b| - 1] == last;
      OtherKindsAppend(a, init, k);
    }
  }

  /** Removing an element that is not in a sequence changes nothing. */
  lemma {:induction false} WithoutAbsent<T>(s: seq<T>, e: T)
    requires e !in s
    ensures Without(s, e) == s
  {
    if s != [] {
      assert s[0] != e;
      WithoutAbsent(s[1..], e);
      assert s == [s[0]] + s[1..];
    }
  }

  /** Removing the one occurrence of an element. */
  lemma {:induction false} WithoutOnce<T>(a: seq<T>, e: T, b: seq<T>)
    requires e !in a && e !in b
    ensures Without(a + [e] + b, e) == a + b
  {
    if a == [] {
      assert a + [e] + b == [e] + b;
      assert ([e] + b)[1..] == b;
      WithoutAbsent(b, e);
    } else {
      assert (a + [e] + b)[0] == a[0] && a[0] != e;
      assert (a + [e] + b)[1..] == a[1..] + [e] + b;
      WithoutOnce(a[1..], e, b);
      assert a + b == [a[0]] + (a[1..] + b);
    }
  }

  /** `clearDom(element, type)`: every child of the kind is removed, the
      others stay in their order. The loop runs over a copy of the child
      list, so removing a child does not skip its successor. */
  method ClearDom(list: DomList, k: Kind)
    requires Distinct(list.children)
    modifies list
    ensures list.children == OtherKinds(old(list.children), k)
  {
    var snapshot := list.children;
    var i := 0;
    while i < |snapshot|
      invariant 0 <= i <= |snapshot|
      invariant list.children == OtherKinds(snapshot[..i], k) + snapshot[i..]
    {
      var el := snapshot[i];
      ClearStep(snapshot, i, k);
      if KindOf(el) == k {
        list.RemoveChild(el);
      }
      i := i + 1;
    }
    assert snapshot[..i] == snapshot;
  }

  /** One step of `clearDom`: removing child `i` of the copy, when it is of
      the kind, leaves the kept prefix followed by the rest. */
  lemma ClearStep(snapshot: seq<Node>, i: nat, k: Kind)
    requires Distinct(snapshot) && i < |snapshot|
    ensures var el := snapshot[i];
      var current := OtherKinds(snapshot[..i], k) + snapshot[i..];
      (KindOf(el) == k ==> el in current && Without(current, el) == OtherKinds(snapshot[..i + 1], k) + snapshot[i + 1..])
      && (KindOf(el) != k ==> current == OtherKinds(snapshot[..i + 1], k) + snapshot[i + 1..])
  {
    var el := snapshot[i];
    assert snapshot[..i + 1][..i] == snapshot[..i];
    assert snapshot[i..] == [el] + snapshot[i + 1..];
    var before := OtherKinds(snapshot[..i], k);
    if KindOf(el) == k {
      assert OtherKinds(snapshot[..i + 1], k) == before;
      assert el !in before by {
        OtherKindsMeaning(snapshot[..i], k, el);
        NotBefore(snapshot, i);
      }
      assert el !in snapshot[i + 1..] by {
        forall m | i < m < |snapshot|
          ensures snapshot[m] != el
        {
          assert Differ(snapshot, i, m);
        }
      }
      assert before + snapshot[i..] == before + [el] + snapshot[i + 1..];
      WithoutOnce(before, el, snapshot[i + 1..]);
    } else {
      assert OtherKinds(snapshot[..i + 1], k) == before + [el];
    }
  }

  // ------------------------------------------------------------ the partitions

  /** The light nodes of the lights whose id `groupedLights` holds
      (`grouped` true), or of the others, in their order. */
  function LightNodes(ls: seq<LightElement>, groupedLights: set<string>, grouped: bool): seq<Node>
    reads set i | 0 <= i < |ls| :: ls[i]
  {
    if ls == [] then []
    else
      var last := ls[|ls| - 1];
      LightNodes(ls[..|ls| - 1], groupedLights, grouped)
      + (if (PropKey(last.id) in groupedLights) == grouped then [LightNode(last)] else [])
  }

  /** A light is in the grouped list exactly when it is listed and its id
      is grouped, in the ungrouped list exactly when it is listed and its
      id is not. */
  lemma {:induction false} LightNodesMeaning(ls: seq<LightElement>, groupedLights: set<string>, grouped: bool, n: Node)
    ensures n in LightNodes(ls, groupedLights, grouped) <==>
      n.LightNode? && n.light in ls && (PropKey(n.light.id) in groupedLights) == grouped
  {
    if ls != [] {
      var init := ls[..|ls| - 1];
      LightNodesMeaning(init, groupedLights, grouped, n);
      assert ls == init + [ls[|ls| - 1]];
    }
  }

  /** The group nodes of the rooms (`rooms` true) or of the plain groups. */
  function GroupNodes(gs: seq<LightGroupElement>, rooms: bool): seq<Node>
    reads set i | 0 <= i < |gs| :: gs[i]
  {
    if gs == [] then []
    else
      var last := gs[|gs| - 1];
      GroupNodes(gs[..|gs| - 1], rooms) + (if last.isRoom == rooms then [GroupNode(last)] else [])
  }

  /** A group is in the room list exactly when it is listed and a room, in
      the group list exactly when it is listed and not a room. */
  lemma {:induction false} GroupNodesMeaning(gs: seq<LightGroupElement>, rooms: bool, n: Node)
    ensures n in GroupNodes(gs, rooms) <==> n.GroupNode? && n.group in gs && n.group.isRoom == rooms
  {
    if gs != [] {
      var init := gs[..|gs| - 1];
      GroupNodesMeaning(init, rooms, n);
      assert gs == init + [gs[|gs| - 1]];
    }
  }

  /** A scene is listed when all scenes are shown or the configured user
      owns it (`===`: an undefined owner matches no user). */
  predicate Listed(scene: LightSceneElement, showAll: bool, user: string)
    reads scene
  {
    showAll || scene.Owner() == Some(user)
  }

  /** The scene nodes of the listed scenes. */
  function SceneNodes(ss: seq<LightSceneElement>, showAll: bool, user: string): seq<Node>
    reads set i | 0 <= i < |ss| :: ss[i]
  {
    if ss == [] then []
    else
      var last := ss[|ss| - 1];
      SceneNodes(ss[..|ss| - 1], showAll, user) + (if Listed(last, showAll, user) then [SceneNode(last)] else [])
  }

  /** A scene is in the scene list exactly when it is one of the scenes and
      is listed. */
  lemma {:induction false} SceneNodesMeaning(ss: seq<LightSceneElement>, showAll: bool, user: string, n: Node)
    ensures n in SceneNodes(ss, showAll, user) <==> n.SceneNode? && n.scene in ss && Listed(n.scene, showAll, user)
  {
    if ss != [] {
      var init := ss[..|ss| - 1];
      SceneNodesMeaning(init, showAll, user, n);
      assert ss == init + [ss[|ss| - 1]];
    }
  }

  /** With "show all" checked every scene is listed, in its order. */
  lemma {:induction false} SceneNodesShowAll(ss: seq<LightSceneElement>, user: string)
    ensures SceneNodes(ss, true, user) == seq(|ss|, i requires 0 <= i < |ss| => SceneNode(ss[i]))
  {
    if ss != [] {
      var init := ss[..|ss| - 1];
      SceneNodesShowAll(init, user);
      assert seq(|ss|, i requires 0 <= i < |ss| => SceneNode(ss[i]))
        == seq(|init|, i requires 0 <= i < |init| => SceneNode(init[i])) + [SceneNode(ss[|ss| - 1])];
    }
  }

  /** The two light lists together are as long as the list of lights:
      with `LightNodesMeaning`, every light lands in exactly one of them,
      once. */
  lemma {:induction false} LightNodesSplit(ls: seq<LightElement>, groupedLights: set<string>)
    ensures |LightNodes(ls, groupedLights, true)| + |LightNodes(ls, groupedLights, false)| == |ls|
  {
    if ls != [] {
      LightNodesSplit(ls[..|ls| - 1], groupedLights);
    }
  }

  /** The saved groups split the same way between the group and the room
      list. */
  lemma {:induction false} GroupNodesSplit(gs: seq<LightGroupElement>)
    ensures |GroupNodes(gs, false)| + |GroupNodes(gs, true)| == |gs|
  {
    if gs != [] {
      GroupNodesSplit(gs[..|gs| - 1]);
    }
  }

  /** `x` is not in a list without repeats before the index it sits at. */
  lemma NotBefore<T>(s: seq<T>, i: nat)
    requires Distinct(s) && i < |s|
    ensures s[i] !in s[..i]
  {
    forall m | 0 <= m < i
      ensures s[m] != s[i]
    {
      assert Differ(s, m, i);
    }
  }

  /** `_refreshLists` for lights: after both lists are cleared of lights,
      each light of `sorted` (the cached lights sorted by room) is appended
      to the grouped list when `groupedLights` holds its id, else to the
      ungrouped one. */
  method PlaceLights(sorted: seq<LightElement>, groupedLights: set<string>, groupedDom: DomList, ungroupedDom: DomList)
    requires groupedDom != ungroupedDom && Distinct(sorted)
    requires forall i :: 0 <= i < |groupedDom.children| ==> !groupedDom.children[i].LightNode?
    requires forall i :: 0 <= i < |ungroupedDom.children| ==> !ungroupedDom.children[i].LightNode?
    modifies groupedDom, ungroupedDom
    ensures groupedDom.children == old(groupedDom.children + LightNodes(sorted, groupedLights, true))
    ensures ungroupedDom.children == old(ungroupedDom.children + LightNodes(sorted, groupedLights, false))
  {
    var i := 0;
    while i < |sorted|
      invariant 0 <= i <= |sorted|
      invariant groupedDom.children == old(groupedDom.children + LightNodes(sorted[..i], groupedLights, true))
      invariant ungroupedDom.children == old(ungroupedDom.children + LightNodes(sorted[..i], groupedLights, false))
    {
      var light := sorted[i];
      var node := LightNode(light);
      var grouped := PropKey(light.id) in groupedLights;
      assert sorted[..i + 1][..i] == sorted[..i];
      NotBefore(sorted, i);
      if grouped {
        assert node !in groupedDom.children by {
          LightNodesMeaning(sorted[..i], groupedLights, true, node);
        }
        WithoutAbsent(groupedDom.children, node);
        groupedDom.Append(node);
      } else {
        assert node !in ungroupedDom.children by {
          LightNodesMeaning(sorted[..i], groupedLights, false, node);
        }
        WithoutAbsent(ungroupedDom.children, node);
        ungroupedDom.Append(node);
      }
      i := i + 1;
    }
    assert sorted[..i] == sorted;
  }

  /** One `forEach` over a sorted group list: the groups whose room flag
      is `rooms` are appended to `dom`. */
  method PlaceGroups(gs: seq<LightGroupElement>, rooms: bool, dom: DomList)
    requires Distinct(gs)
    requires forall i :: 0 <= i < |dom.children| ==> !dom.children[i].GroupNode?
    modifies dom
    ensures dom.children == old(dom.children + GroupNodes(gs, rooms))
  {
    var i := 0;
    while i < |gs|
      invariant 0 <= i <= |gs|
      invariant dom.children == old(dom.children + GroupNodes(gs[..i], rooms))
    {
      var group := gs[i];
      assert gs[..i + 1][..i] == gs[..i];
      if group.isRoom == rooms {
        assert GroupNode(group) !in dom.children by {
          NotBefore(gs, i);
          GroupNodesMeaning(gs[..i], rooms, GroupNode(group));
        }
        WithoutAbsent(dom.children, GroupNode(group));
        dom.Append(GroupNode(group));
      }
      i := i + 1;
    }
    assert gs[..i] == gs;
  }

  /** One `forEach` over a scene list: the listed scenes are appended to
      `dom`. */
  method PlaceScenes(ss: seq<LightSceneElement>, showAll: bool, user: string, dom: DomList)
    requires Distinct(ss)
    requires forall i :: 0 <= i < |dom.children| ==> !dom.children[i].SceneNode?
    modifies dom
    ensures dom.children == old(dom.children + SceneNodes(ss, showAll, user))
  {
    var i := 0;
    while i < |ss|
      invariant 0 <= i <= |ss|
      invariant dom.children == old(dom.children + SceneNodes(ss[..i], showAll, user))
    {
      var scene := ss[i];
      assert ss[..i + 1][..i] == ss[..i];
      if showAll || scene.Owner() == Some(user) {
        assert SceneNode(scene) !in dom.children by {
          NotBefore(ss, i);
          SceneNodesMeaning(ss[..i], showAll, user, SceneNode(scene));
        }
        WithoutAbsent(dom.children, SceneNode(scene));
        dom.Append(SceneNode(scene));
      }
      i := i + 1;
    }
    assert ss[..i] == ss;
  }

  /** After `clearDom` no node of the kind is left. */
  lemma OtherKindsNone(children: seq<Node>, k: Kind)
    ensures forall i :: 0 <= i < |OtherKinds(children, k)| ==> KindOf(OtherKinds(children, k)[i]) != k
  {
    forall i | 0 <= i < |OtherKinds(children, k)|
      ensures KindOf(OtherKinds(children, k)[i]) != k
    {
      OtherKindsMeaning(children, k, OtherKinds(children, k)[i]);
    }
  }

  /** The kept nodes of a list without repeats have no repeats. */
  lemma {:induction false} OtherKindsDistinct(children: seq<Node>, k: Kind)
    requires Distinct(children)
    ensures Distinct(OtherKinds(children, k))
  {
    if children != [] {
      var init := children[..|children| - 1];
      var last := children[|children| - 1];
      assert Distinct(init) by {
        forall i, j | 0 <= i < j < |init|
          ensures Differ(init, i, j)
        {
          assert Differ(children, i, j);
        }
      }
      OtherKindsDistinct(init, k);
      var front := OtherKinds(init, k);
      if KindOf(last) != k {
        NotBefore(children, |children| - 1);
        OtherKindsMeaning(init, k, last);
        var r := front + [last];
        assert OtherKinds(children, k) == r;
        forall i, j | 0 <= i < j < |r|
          ensures Differ(r, i, j)
        {
          if j < |front| {
            assert Differ(front, i, j);
          } else {
            assert r[i] == front[i] && front[i] in front;
            assert r[j] == last && last !in front;
          }
        }
      } else {
        assert OtherKinds(children, k) == front;
      }
    }
  }

  // ------------------------------------------------------------ the view

  /** A configuration entry written with `config.set(key, value, local)`. */
  datatype ConfigWrite = ConfigWrite(key: string, ids: seq<string>, local: bool)

  /** A DOM ancestor of a clicked expand button. */
  datatype Section = Section(id: string, collapsible: bool)

  /** The index of the first collapsible element in a chain of ancestors,
      nearest first. */
  function FirstCollapsible(ancestors: seq<Section>): (r: Option<nat>)
    ensures r.Some? ==>
      r.value < |ancestors| && ancestors[r.value].collapsible && forall j :: 0 <= j < r.value ==> !ancestors[j].collapsible
    ensures r.None? ==> forall j :: 0 <= j < |ancestors| ==> !ancestors[j].collapsible
  {
    if ancestors == [] then None
    else if ancestors[0].collapsible then Some(0)
    else
      var rest := FirstCollapsible(ancestors[1..]);
      if rest.Some? then Some(rest.value + 1) else None
  }

  /** The collapsed ids whose section exists, in their order. */
  function Existing(ids: seq<string>, present: set<string>): seq<string>
  {
    if ids == [] then []
    else
      var last := ids[|ids| - 1];
      Existing(ids[..|ids| - 1], present) + (if last in present then [last] else [])
  }

  /** `Existing` keeps exactly the ids whose section exists. */
  lemma {:induction false} ExistingMeaning(ids: seq<string>, present: set<string>, id: string)
    ensures id in Existing(ids, present) <==> id in ids && id in present
  {
    if ids != [] {
      var init := ids[..|ids| - 1];
      ExistingMeaning(init, present, id);
      assert ids == init + [ids[|ids| - 1]];
    }
  }

  /** Pruning twice prunes nothing more. */
  lemma {:induction false} ExistingIdempotent(ids: seq<string>, present: set<string>)
    ensures Existing(Existing(ids, present), present) == Existing(ids, present)
  {
    if ids != [] {
      var init := ids[..|ids| - 1];
      var last := ids[|ids| - 1];
      ExistingIdempotent(init, present);
      var front := Existing(init, present);
      if last in present {
        var r := front + [last];
        assert Existing(ids, present) == r;
        assert r[..|r| - 1] == front && r[|r| - 1] == last;
        assert Existing(r, present) == Existing(front, present) + [last];
      } else {
        assert Existing(ids, present) == front;
      }
    }
  }

  class HomeLightingConfiguration {
    /** The ids of the collapsed sections, as stored in the configuration. */
    var collapsedIds: seq<string>
    /** The ids of the sections that carry the "collapsed" class. */
    var collapsed: set<string>
    /** The configuration entries written, oldest first. */
    var configWrites: seq<ConfigWrite>

    constructor (collapsedIds: seq<string>)
      ensures this.collapsedIds == collapsedIds && collapsed == {} && configWrites == []
    {
      this.collapsedIds := collapsedIds;
      collapsed := {};
      configWrites := [];
    }

    /** `_switchSectionExpand`: the nearest collapsible ancestor of the
        button toggles its "collapsed" class. Collapsing appends its id to
        `collapsedIds` (a repeat is appended again); expanding removes every
        occurrence. The list is then written to the configuration, locally.
        Without a collapsible ancestor nothing changes. */
    method SwitchSectionExpand(ancestors: seq<Section>) returns (section: Option<string>)
      modifies this
      ensures FirstCollapsible(ancestors).None? ==>
        section.None? && collapsedIds == old(collapsedIds) && collapsed == old(collapsed)
        && configWrites == old(configWrites)
      ensures FirstCollapsible(ancestors).Some? ==>
        var id := ancestors[FirstCollapsible(ancestors).value].id;
        section == Some(id)
        && (id in old(collapsed) ==> collapsed == old(collapsed) - {id} && collapsedIds == Without(old(collapsedIds), id))
        && (id !in old(collapsed) ==> collapsed == old(collapsed) + {id} && collapsedIds == old(collapsedIds) + [id])
        && configWrites == old(configWrites) + [ConfigWrite("collapsedIds", collapsedIds, true)]
    {
      var i := 0;
      while i < |ancestors| && !ancestors[i].collapsible
        invariant 0 <= i <= |ancestors|
        invariant forall j :: 0 <= j < i ==> !ancestors[j].collapsible
      {
        i := i + 1;
      }
      if i == |ancestors| {
        return None;
      }
      var id := ancestors[i].id;
      section := Some(id);
      if id !in collapsed {
        collapsed := collapsed + {id};
        collapsedIds := collapsedIds + [id];
      } else {
        collapsed := collapsed - {id};
        collapsedIds := Without(collapsedIds, id);
      }
      configWrites := configWrites + [ConfigWrite("collapsedIds", collapsedIds, true)];
    }

    /** The first loop of `_refreshLists`: an id whose section exists
        (`present`) marks that section collapsed; any other id is spliced
        out, and the index steps back so the next id is not skipped. */
    method PruneCollapsedIds(present: set<string>)
      modifies this`collapsedIds, this`collapsed
      ensures collapsedIds == Existing(old(collapsedIds), present)
      ensures collapsed == old(collapsed) + Elements(collapsedIds)
    {
      ghost var ids := collapsedIds;
      ghost var j := 0;
      var i: int := 0;
      while i < |collapsedIds|
        invariant 0 <= j <= |ids| && 0 <= i <= |collapsedIds|
        invariant collapsedIds == Existing(ids[..j], present) + ids[j..]
        invariant i == |Existing(ids[..j], present)|
        invariant collapsed == old(collapsed) + Elements(Existing(ids[..j], present))
        decreases |collapsedIds| - i
      {
        i := PruneAt(ids, j, old(collapsed), i, present);
        j := j + 1;
      }
      assert ids[..j] == ids;
    }

    /** One turn of the loop of `PruneCollapsedIds`, at index `i` of the
        list, which is index `j` of the list the loop started from; `base`
        is the set of collapsed sections before the loop. */
    method PruneAt(ghost ids: seq<string>, ghost j: nat, ghost base: set<string>, i: nat, present: set<string>)
      returns (next: nat)
      requires j < |ids| && i < |collapsedIds|
      requires collapsed == base + Elements(Existing(ids[..j], present))
      requires collapsedIds == Existing(ids[..j], present) + ids[j..]
      requires i == |Existing(ids[..j], present)|
      modifies this`collapsedIds, this`collapsed
      ensures collapsedIds == Existing(ids[..j + 1], present) + ids[j + 1..]
      ensures next == |Existing(ids[..j + 1], present)|
      ensures collapsed == base + Elements(Existing(ids[..j + 1], present))
    {
      var id := collapsedIds[i];
      ghost var kept := Existing(ids[..j], present);
      assert id == ids[j];
      assert ids[..j + 1][..j] == ids[..j];
      assert ids[j..] == [id] + ids[j + 1..];
      if id in present {
        assert Existing(ids[..j + 1], present) == kept + [id];
        ElementsSnoc(kept, id);
        collapsed := collapsed + {id};
        next := i + 1;
      } else {
        assert Existing(ids[..j + 1], present) == kept;
        assert collapsedIds[..i] == kept && collapsedIds[i + 1..] == ids[j + 1..];
        collapsedIds := collapsedIds[..i] + collapsedIds[i + 1..];
        next := i;
      }
    }
  }

  /** Expanding a section removes it from the list entirely, however often
      it had been collapsed: switching twice from expanded leaves no trace
      of the id in `collapsedIds`. */
  method SwitchTwice(view: HomeLightingConfiguration, ancestors: seq<Section>)
    requires FirstCollapsible(ancestors).Some?
    requires ancestors[FirstCollapsible(ancestors).value].id !in view.collapsed
    modifies view
    ensures view.collapsed == old(view.collapsed)
    ensures view.collapsedIds == Without(old(view.collapsedIds), ancestors[FirstCollapsible(ancestors).value].id)
  {
    var s1 := view.SwitchSectionExpand(ancestors);
    var s2 := view.SwitchSectionExpand(ancestors);
    var id := ancestors[FirstCollapsible(ancestors).value].id;
    WithoutSnoc(old(view.collapsedIds), id);
  }

  /** Removing an id from a list that ends with it. */
  lemma {:induction false} WithoutSnoc<T>(s: seq<T>, e: T)
    ensures Without(s + [e], e) == Without(s, e)
  {
    if s == [] {
      assert [e][1..] == [];
    } else {
      assert (s + [e])[1..] == s[1..] + [e];
      WithoutSnoc(s[1..], e);
    }
  }

  /** `_refreshLists` for lights: both light lists are cleared of lights,
      and the cached lights, sorted by room (`sorted`, the result of the
      sort, an input here), are placed by `groupedLights`. */
  method RefreshLights(bridge: BridgeConnector, sorted: seq<LightElement>, groupedDom: DomList, ungroupedDom: DomList)
    requires Enumerates(sorted, bridge.lights.Values)
    requires groupedDom != ungroupedDom && Distinct(groupedDom.children) && Distinct(ungroupedDom.children)
    modifies groupedDom, ungroupedDom
    ensures groupedDom.children == old(OtherKinds(groupedDom.children, LightKind) + LightNodes(sorted, bridge.groupedLights, true))
    ensures ungroupedDom.children == old(OtherKinds(ungroupedDom.children, LightKind) + LightNodes(sorted, bridge.groupedLights, false))
  {
    ClearDom(groupedDom, LightKind);
    OtherKindsNone(old(groupedDom.children), LightKind);
    ClearDom(ungroupedDom, LightKind);
    OtherKindsNone(old(ungroupedDom.children), LightKind);
    PlaceLights(sorted, bridge.groupedLights, groupedDom, ungroupedDom);
  }

  /** One group list of `_refreshLists`: it is cleared of groups, and the
      groups of `gs` whose room flag is `rooms` are appended. */
  method ShowGroups(gs: seq<LightGroupElement>, rooms: bool, dom: DomList)
    requires Distinct(gs) && Distinct(dom.children)
    modifies dom
    ensures dom.children == old(OtherKinds(dom.children, GroupKind) + GroupNodes(gs, rooms))
  {
    ClearDom(dom, GroupKind);
    OtherKindsNone(old(dom.children), GroupKind);
    PlaceGroups(gs, rooms, dom);
  }

  /** The saved groups of `_refreshLists`: plain groups go to the group
      list, rooms to the room list. */
  method ShowSavedGroups(sorted: seq<LightGroupElement>, groupsDom: DomList, roomsDom: DomList)
    requires Distinct(sorted) && Distinct(groupsDom.children) && Distinct(roomsDom.children) && groupsDom != roomsDom
    modifies groupsDom, roomsDom
    ensures groupsDom.children == old(OtherKinds(groupsDom.children, GroupKind) + GroupNodes(sorted, false))
    ensures roomsDom.children == old(OtherKinds(roomsDom.children, GroupKind) + GroupNodes(sorted, true))
  {
    ghost var rooms := GroupNodes(sorted, true);
    ShowGroups(sorted, false, groupsDom);
    assert GroupNodes(sorted, true) == rooms;
    ShowGroups(sorted, true, roomsDom);
  }

  /** `_refreshLists` for groups: the drafts are sorted by name in place
      (`sortedDrafts`; nothing here reads the drafts list, so the model
      stores it last), the saved groups sorted by name (`sortedSaved`);
      plain saved groups go to the group list, saved rooms to the room
      list, plain drafts to the "Create New Group" list. Draft rooms are
      shown nowhere. */
  method RefreshGroups(bridge: BridgeConnector, sortedSaved: seq<LightGroupElement>, sortedDrafts: seq<LightGroupElement>,
                       groupsDom: DomList, draftsDom: DomList, roomsDom: DomList)
    requires Enumerates(sortedSaved, bridge.groups.Values)
    requires Distinct(sortedDrafts) && multiset(sortedDrafts) == multiset(bridge.groupsUnSaved)
    requires Distinct(groupsDom.children) && Distinct(draftsDom.children) && Distinct(roomsDom.children)
    requires groupsDom != draftsDom && draftsDom != roomsDom && groupsDom != roomsDom
    modifies bridge`groupsUnSaved, groupsDom, draftsDom, roomsDom
    ensures bridge.groupsUnSaved == sortedDrafts
    ensures groupsDom.children == old(OtherKinds(groupsDom.children, GroupKind) + GroupNodes(sortedSaved, false))
    ensures draftsDom.children == old(OtherKinds(draftsDom.children, GroupKind) + GroupNodes(sortedDrafts, false))
    ensures roomsDom.children == old(OtherKinds(roomsDom.children, GroupKind) + GroupNodes(sortedSaved, true))
  {
    ghost var drafts := GroupNodes(sortedDrafts, false);
    ShowSavedGroups(sortedSaved, groupsDom, roomsDom);
    assert GroupNodes(sortedDrafts, false) == drafts;
    ShowGroups(sortedDrafts, false, draftsDom);
    bridge.groupsUnSaved := sortedDrafts;
  }

  /** One scene list of `_refreshLists`: it is cleared of scenes, and the
      listed scenes of `ss` are appended. */
  method ShowScenes(ss: seq<LightSceneElement>, showAll: bool, user: string, dom: DomList)
    requires Distinct(ss) && Distinct(dom.children)
    modifies dom
    ensures dom.children == old(OtherKinds(dom.children, SceneKind) + SceneNodes(ss, showAll, user))
  {
    ClearDom(dom, SceneKind);
    OtherKindsNone(old(dom.children), SceneKind);
    PlaceScenes(ss, showAll, user, dom);
  }

  /** `_refreshLists` for scenes: the saved scenes, sorted by name, are
      listed when "show all" is checked or the configured `user` owns
      them, and every draft is listed in the drafts' order. */
  method RefreshScenes(bridge: BridgeConnector, sortedSaved: seq<LightSceneElement>, showAll: bool, user: string,
                       scenesDom: DomList, draftsDom: DomList)
    requires Enumerates(sortedSaved, bridge.scenes.Values) && Distinct(bridge.scenesUnSaved)
    requires Distinct(scenesDom.children) && Distinct(draftsDom.children) && scenesDom != draftsDom
    modifies scenesDom, draftsDom
    ensures scenesDom.children == old(OtherKinds(scenesDom.children, SceneKind) + SceneNodes(sortedSaved, showAll, user))
    ensures draftsDom.children == old(OtherKinds(draftsDom.children, SceneKind) + SceneNodes(bridge.scenesUnSaved, true, user))
  {
    ShowScenes(sortedSaved, showAll, user, scenesDom);
    ShowScenes(bridge.scenesUnSaved, true, user, draftsDom);
  }
}
