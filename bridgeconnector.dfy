/**
 * The bridge connector (js/modules/hue/bridgeconnector.js): one cache per
 * bridge and user of the bridge's lights, groups and scenes, the drafts that
 * are not saved on the bridge yet, and the operations that move entities
 * between the drafts and the saved maps.
 *
 * The network is an oracle. Every request the connector would send is
 * appended to `log`, and the bridge's answer to it is a parameter of the
 * method that sends it. The events the connector dispatches, and the error
 * alerts it raises, are appended to `events`.
 */
module Bridge {
  import opened Js
  import opened LightEl
  import opened GroupEl
  import opened SceneEl

  // ------------------------------------------------------------ requests

  datatype Verb = GET | PUT | POST | DELETE

  /** The JSON body of a request, one variant per payload the connector
      builds. */
  datatype Body =
    | NoBody
    /** `{name, lights, recycle}` of `createScene` */
    | NewSceneBody(name: string, lights: seq<string>, recycle: bool)
    /** `{name, lights, storelightstate}` of `updateScene` */
    | SceneMembersBody(name: string, lights: seq<string>, storeLightstate: bool)
    /** `{name, lights, type}` of `createGroup` */
    | NewGroupBody(name: string, lights: seq<string>, groupType: string)
    /** `{name, lights}` of `updateGroup` */
    | GroupMembersBody(name: string, lights: seq<string>)
    /** `{name}` of `updateLight` */
    | RenameBody(name: string)
    /** a light state or group action */
    | StateBody(state: State)
    /** `{scene}`: recall a scene on group 0 */
    | RecallBody(scene: Option<string>)

  datatype Request = Request(path: string, verb: Verb, body: Body)

  /** The first item of the bridge's answer array: a success object, with
      the id of a created resource when there is one, or an error. */
  datatype AnswerItem = Success(id: Option<string>) | Error
  type Answer = seq<AnswerItem>

  /** `answer[0]?.success` is defined (and, being an object, truthy). */
  predicate Succeeded(a: Answer)
  {
    |a| > 0 && a[0].Success?
  }

  /** `answer[0]?.success?.id` */
  function CreatedId(a: Answer): (id: Option<string>)
    ensures id.Some? ==> Succeeded(a)
  {
    if Succeeded(a) then a[0].id else None
  }

  /** What the connector dispatches or raises. */
  datatype Event =
    | ConfigChange
    | Load
    | GroupCreated(group: LightGroupElement)
    | SceneCreated(scene: LightSceneElement)
    /** an `alert` with the bridge's error answer */
    | ErrorReported

  function Path(collection: string, id: Option<string>): string
  {
    collection + "/" + PropKey(id)
  }

  /** The state PUT `createScene` sends for each member light. */
  function SwitchOnPuts(sceneId: string, lightIds: seq<string>): (r: seq<Request>)
    ensures |r| == |lightIds|
    ensures forall i :: 0 <= i < |r| ==>
      r[i] == Request("scenes/" + sceneId + "/lights/" + lightIds[i] + "/state", PUT, StateBody(map["on" := Bool(true)]))
  {
    if lightIds == [] then []
    else
      var last := lightIds[|lightIds| - 1];
      SwitchOnPuts(sceneId, lightIds[..|lightIds| - 1])
        + [Request("scenes/" + sceneId + "/lights/" + last + "/state", PUT, StateBody(map["on" := Bool(true)]))]
  }

  /** The state PUT `updateScene` sends for each target lightstate. */
  function TargetPuts(sceneId: string, targets: Lightstates): (r: seq<Request>)
    ensures |r| == |targets|
    ensures forall i :: 0 <= i < |r| ==>
      r[i] == Request("scenes/" + sceneId + "/lights/" + targets[i].0 + "/state", PUT, StateBody(targets[i].1))
  {
    if targets == [] then []
    else
      var last := targets[|targets| - 1];
      TargetPuts(sceneId, targets[..|targets| - 1])
        + [Request("scenes/" + sceneId + "/lights/" + last.0 + "/state", PUT, StateBody(last.1))]
  }

  // ------------------------------------------------------- state payload

  /** The fields `_setLightState` and `_setGroupState` pass on. */
  const Accepted: set<string> := {"on", "bri", "hue", "sat", "ct", "xy", "alert", "effect",
    "transitiontime", "bri_inc", "sat_inc", "hue_inc", "ct_inc", "xy_inc"}

  /** A value as `JSON.stringify` writes it inside an object: NaN becomes
      null. */
  function Serialized(v: JsValue): (r: JsValue)
    ensures r != NaN && r != Undefined <==> v != Undefined
  {
    if v == NaN then Null else v
  }

  /** The body of a state PUT: the accepted fields of `data`, copied into a
      fresh object; `JSON.stringify` drops the ones that are undefined. */
  function Payload(data: State): (p: State)
    ensures forall k :: k in p <==> k in Accepted && k in data && data[k] != Undefined
    ensures forall k :: k in p ==> p[k] == Serialized(data[k])
  {
    map k | k in Accepted && k in data && data[k] != Undefined :: Serialized(data[k])
  }

  /** The whole object `_setAllLightsState` sends, as `JSON.stringify`
      writes it. */
  function Whole(data: State): (p: State)
    ensures p.Keys == set k | k in data && data[k] != Undefined
    ensures forall k :: k in p ==> p[k] == Serialized(data[k])
  {
    map k | k in data && data[k] != Undefined :: Serialized(data[k])
  }

  /** Filtering is idempotent: a payload passes through unchanged. */
  lemma PayloadIdempotent(data: State)
    ensures Payload(Payload(data)) == Payload(data)
  {
    var p := Payload(data);
    assert forall k :: k in p ==> p[k] != NaN;
  }

  /** Only accepted fields matter: two states that agree on them give the
      same payload, whatever else they hold. */
  lemma PayloadIgnoresOtherFields(d1: State, d2: State)
    requires forall k :: k in Accepted ==> Get(d1, k) == Get(d2, k)
    ensures Payload(d1) == Payload(d2)
  {
    var p1, p2 := Payload(d1), Payload(d2);
    assert p1.Keys == p2.Keys by {
      forall k | k in p1
        ensures k in p2
      {
        assert Get(d1, k) == Get(d2, k);
      }
      forall k | k in p2
        ensures k in p1
      {
        assert Get(d1, k) == Get(d2, k);
      }
    }
    forall k | k in p1
      ensures p1[k] == p2[k]
    {
      assert Get(d1, k) == Get(d2, k);
    }
  }

  // ------------------------------------------------- de-duplicated order

  /** `a.indexOf(e)` for an element that occurs. */
  function IndexOf<T(==)>(s: seq<T>, e: T): (i: nat)
    requires e in s
    ensures i < |s| && s[i] == e
    ensures forall j :: 0 <= j < i ==> s[j] != e
  {
    if s[0] == e then 0 else 1 + IndexOf(s[1..], e)
  }

  /** `a.filter((e, i, a) => a.indexOf(e) === i)`: the first occurrence of
      every element, in order. */
  function FirstOccurrences<T(==)>(s: seq<T>): (r: seq<T>)
  {
    if s == [] then []
    else
      var init := s[..|s| - 1];
      if s[|s| - 1] in init then FirstOccurrences(init) else FirstOccurrences(init) + [s[|s| - 1]]
  }

  /** The de-duplicated list has the same elements, each once. */
  lemma {:induction false} FirstOccurrencesMeaning<T>(s: seq<T>)
    ensures Distinct(FirstOccurrences(s))
    ensures forall i :: 0 <= i < |FirstOccurrences(s)| ==> FirstOccurrences(s)[i] in s
    ensures forall i :: 0 <= i < |s| ==> s[i] in FirstOccurrences(s)
  {
    if s != [] {
      var init := s[..|s| - 1];
      var last := s[|s| - 1];
      FirstOccurrencesMeaning(init);
      var r0 := FirstOccurrences(init);
      assert s == init + [last];
      if last !in init {
        var r := r0 + [last];
        forall i, j | 0 <= i < j < |r|
          ensures Differ(r, i, j)
        {
          if j < |r0| {
            assert Differ(r0, i, j);
          } else {
            assert r0[i] in init;
          }
        }
      }
    }
  }

  /** The de-duplicated list keeps the order of first occurrences. */
  lemma {:induction false} FirstOccurrencesOrdered<T>(s: seq<T>)
    ensures forall i, j :: 0 <= i < j < |FirstOccurrences(s)| ==>
      FirstOccurrences(s)[i] in s && FirstOccurrences(s)[j] in s
      && IndexOf(s, FirstOccurrences(s)[i]) < IndexOf(s, FirstOccurrences(s)[j])
  {
    FirstOccurrencesMeaning(s);
    if s != [] {
      var init := s[..|s| - 1];
      var last := s[|s| - 1];
      FirstOccurrencesOrdered(init);
      FirstOccurrencesMeaning(init);
      assert s == init + [last];
      var r0, r := FirstOccurrences(init), FirstOccurrences(s);
      if last !in init {
        assert IndexOf(s, last) == |init| by {
          assert forall j :: 0 <= j < |init| ==> s[j] == init[j];
        }
      }
      forall i, j | 0 <= i < j < |r|
        ensures IndexOf(s, r[i]) < IndexOf(s, r[j])
      {
        assert r[i] == r0[i] && r0[i] in init;
        PrefixIndexOf(init, [last], r[i]);
        if j < |r0| {
          assert r[j] == r0[j] && r0[j] in init;
          PrefixIndexOf(init, [last], r[j]);
        }
      }
    }
  }

  lemma {:induction false} PrefixIndexOf<T>(s: seq<T>, t: seq<T>, e: T)
    requires e in s
    ensures IndexOf(s + t, e) == IndexOf(s, e)
  {
    if s[0] != e {
      assert (s + t)[1..] == s[1..] + t;
      PrefixIndexOf(s[1..], t, e);
    }
  }

  // ------------------------------------------------------------ elements

  /** An entry of `updateFor`'s list: an element, or the undefined value a
      member map holds for a light the cache did not know. */
  datatype Element =
    | LightItem(light: LightElement)
    | GroupItem(group: LightGroupElement)
    | SceneItem(scene: LightSceneElement)
    | Missing

  /** The values of a member map, listed in the order of its keys. */
  function MemberItems(order: seq<string>, m: map<string, Option<LightElement>>): (r: seq<Element>)
    requires forall k :: k in order ==> k in m
    ensures |r| == |order|
    ensures forall i :: 0 <= i < |r| ==>
      r[i] == (if m[order[i]].Some? then LightItem(m[order[i]].value) else Missing)
  {
    if order == [] then []
    else
      var v := m[order[|order| - 1]];
      MemberItems(order[..|order| - 1], m) + [if v.Some? then LightItem(v.value) else Missing]
  }

  /** The saved groups, in key order, whose member map holds `lightId`. */
  function GroupsHolding(lightId: string, groupOrder: seq<string>, groups: map<string, LightGroupElement>): (r: seq<Element>)
    requires forall k :: k in groupOrder ==> k in groups
    reads groups.Values
    ensures |r| <= |groupOrder|
    ensures forall i :: 0 <= i < |r| ==> r[i].GroupItem?
  {
    if groupOrder == [] then []
    else
      var init := GroupsHolding(lightId, groupOrder[..|groupOrder| - 1], groups);
      var g := groups[groupOrder[|groupOrder| - 1]];
      if Holds(g.lights, lightId) then init + [GroupItem(g)] else init
  }

  /** An element is listed for `lightId` exactly when it is one of the
      groups whose member map holds that light. */
  lemma {:induction false} GroupsHoldingMeaning(lightId: string, groupOrder: seq<string>,
                                                 groups: map<string, LightGroupElement>, e: Element)
    requires forall k :: k in groupOrder ==> k in groups
    ensures e in GroupsHolding(lightId, groupOrder, groups) <==>
      exists k :: k in groupOrder && e == GroupItem(groups[k]) && Holds(groups[k].lights, lightId)
  {
    if groupOrder != [] {
      var front := groupOrder[..|groupOrder| - 1];
      var last := groupOrder[|groupOrder| - 1];
      assert forall k :: k in front ==> k in groupOrder;
      GroupsHoldingMeaning(lightId, front, groups, e);
      if e in GroupsHolding(lightId, groupOrder, groups) && e !in GroupsHolding(lightId, front, groups) {
        assert e == GroupItem(groups[last]) && last in groupOrder;
      }
      if exists k :: k in groupOrder && e == GroupItem(groups[k]) && Holds(groups[k].lights, lightId) {
        var k :| k in groupOrder && e == GroupItem(groups[k]) && Holds(groups[k].lights, lightId);
        if k != last {
          assert k in front;
        }
      }
    }
  }

  /** The groups hit for each light id in turn. */
  function GroupHits(lightIds: seq<string>, groupOrder: seq<string>, groups: map<string, LightGroupElement>): (r: seq<Element>)
    requires forall k :: k in groupOrder ==> k in groups
    reads groups.Values
    ensures forall i :: 0 <= i < |r| ==> r[i].GroupItem?
  {
    if lightIds == [] then []
    else GroupHits(lightIds[..|lightIds| - 1], groupOrder, groups) + GroupsHolding(lightIds[|lightIds| - 1], groupOrder, groups)
  }

  /** Every entry `GroupHits` lists is a saved group. */
  lemma {:induction false} GroupHitsWithin(lightIds: seq<string>, groupOrder: seq<string>,
                                            groups: map<string, LightGroupElement>, e: Element)
    requires forall k :: k in groupOrder ==> k in groups
    requires e in GroupHits(lightIds, groupOrder, groups)
    ensures e.GroupItem? && e.group in groups.Values
  {
    if lightIds != [] {
      var front := lightIds[..|lightIds| - 1];
      if e in GroupHits(front, groupOrder, groups) {
        GroupHitsWithin(front, groupOrder, groups, e);
      } else {
        GroupsHoldingMeaning(lightIds[|lightIds| - 1], groupOrder, groups, e);
      }
    }
  }

  /** The light ids `updateFor` collects are keys of the target's member
      map, in the order `order` gives them. */
  predicate MembersListed(target: Element, order: seq<string>)
    reads ObjectOf(target)
  {
    match target
    case GroupItem(g) => forall k :: k in order ==> k in g.lights
    case SceneItem(s) => forall k :: k in order ==> k in s.lights
    case _ => true
  }

  /** `updateFor`'s `for…in` over the target's member map: `order` lists
      every member key exactly once; a light has no member map. */
  predicate MembersEnumerated(target: Element, order: seq<string>)
    reads ObjectOf(target)
  {
    match target
    case GroupItem(g) => Enumerates(order, g.lights.Keys)
    case SceneItem(s) => Enumerates(order, s.lights.Keys)
    case _ => order == []
  }

  /** The list `updateFor` builds before removing duplicates: for a group or
      scene its member lights (undefined where the cache lacked one), then
      itself; for a light, the light; then, per light id, every saved group
      whose member map holds it. The rooms loop reads an undefined
      property and the scenes loop compares an element with 0, so neither
      adds anything. */
  function Collected(target: Element, order: seq<string>, groupOrder: seq<string>,
                     groups: map<string, LightGroupElement>): seq<Element>
    requires MembersListed(target, order)
    requires forall k :: k in groupOrder ==> k in groups
    reads ObjectOf(target), groups.Values
  {
    match target
    case LightItem(l) => [target] + GroupHits([PropKey(l.id)], groupOrder, groups)
    case GroupItem(g) => MemberItems(order, g.lights) + [target] + GroupHits(order, groupOrder, groups)
    case SceneItem(s) => MemberItems(order, s.lights) + [target] + GroupHits(order, groupOrder, groups)
    case Missing => []
  }

  /** The elements `updateFor` refreshes, in order. */
  function Targets(target: Element, order: seq<string>, groupOrder: seq<string>,
                   groups: map<string, LightGroupElement>): seq<Element>
    requires MembersListed(target, order)
    requires forall k :: k in groupOrder ==> k in groups
    reads ObjectOf(target), groups.Values
  {
    FirstOccurrences(Collected(target, order, groupOrder, groups))
  }

  /** The member lights a group or scene holds. */
  function MemberLights(m: map<string, Option<LightElement>>): set<object>
  {
    set k | k in m && m[k].Some? :: m[k].value as object
  }

  /** Everything `updateFor` may refresh: the target, its member lights
      and the saved groups. */
  function Reach(target: Element, groups: map<string, LightGroupElement>): set<object>
    reads ObjectOf(target)
  {
    var members := match target
      case GroupItem(g) => MemberLights(g.lights)
      case SceneItem(s) => MemberLights(s.lights)
      case _ => {};
    ObjectOf(target) + members + set k | k in groups :: groups[k] as object
  }

  /** The refreshed elements are the target, its members and saved groups,
      and each of them occurs once; only the target itself can be a
      scene. */
  lemma TargetsWithin(target: Element, order: seq<string>, groupOrder: seq<string>,
                      groups: map<string, LightGroupElement>)
    requires MembersListed(target, order)
    requires forall k :: k in groupOrder ==> k in groups
    ensures var list := Targets(target, order, groupOrder, groups);
      Distinct(list)
      && Objects(list) <= Reach(target, groups)
      && forall i :: 0 <= i < |list| && list[i].SceneItem? ==> list[i] == target
  {
    var all := Collected(target, order, groupOrder, groups);
    var list := Targets(target, order, groupOrder, groups);
    FirstOccurrencesMeaning(all);
    forall e | e in all
      ensures ObjectOf(e) <= Reach(target, groups)
      ensures e.SceneItem? ==> e == target
    {
      Within(target, order, groupOrder, groups, e);
    }
    forall o | o in Objects(list)
      ensures o in Reach(target, groups)
    {
      var i := ObjectsMeaning(list, o);
    }
    forall i | 0 <= i < |list| && list[i].SceneItem?
      ensures list[i] == target
    {
      assert list[i] in all;
    }
  }

  /** One collected element lies within the reach of the target. */
  lemma Within(target: Element, order: seq<string>, groupOrder: seq<string>,
               groups: map<string, LightGroupElement>, e: Element)
    requires MembersListed(target, order)
    requires forall k :: k in groupOrder ==> k in groups
    requires e in Collected(target, order, groupOrder, groups)
    ensures ObjectOf(e) <= Reach(target, groups)
    ensures e.SceneItem? ==> e == target
  {
    var ids := if target.LightItem? then [PropKey(target.light.id)] else order;
    if e in GroupHits(ids, groupOrder, groups) {
      GroupHitsWithin(ids, groupOrder, groups, e);
    } else if target.GroupItem? && e in MemberItems(order, target.group.lights) {
      var i :| 0 <= i < |order| && MemberItems(order, target.group.lights)[i] == e;
    } else if target.SceneItem? && e in MemberItems(order, target.scene.lights) {
      var i :| 0 <= i < |order| && MemberItems(order, target.scene.lights)[i] == e;
    }
  }

  /** An object of an element list belongs to one of its elements. */
  lemma {:induction false} ObjectsMeaning(es: seq<Element>, o: object) returns (i: nat)
    requires o in Objects(es)
    ensures i < |es| && o in ObjectOf(es[i])
  {
    var front := es[..|es| - 1];
    if o in Objects(front) {
      i := ObjectsMeaning(front, o);
    } else {
      i := |es| - 1;
    }
  }

  /** Different elements refer to different objects. */
  lemma ObjectsApart(a: Element, b: Element)
    requires a != b
    ensures ObjectOf(a) !! ObjectOf(b)
  {
  }

  /** One more element adds its GET. */
  lemma FetchesStep(es: seq<Element>, ids: seq<Option<string>>, i: nat)
    requires |ids| == |es| && i < |es|
    ensures Fetches(es[..i + 1], ids[..i + 1]) == Fetches(es[..i], ids[..i]) + Fetch(es[i], ids[i])
  {
    assert es[..i + 1][..i] == es[..i];
    assert ids[..i + 1][..i] == ids[..i];
  }

  /** What an element holds once `updateElement` stored the bridge's answer
      to its GET, tagged with its own id. */
  predicate Refreshed(e: Element, replies: Replies, known: map<string, LightElement>)
    reads ObjectOf(e)
  {
    match e
    case LightItem(l) => l.data == Some(replies.light(PropKey(l.id)).(tag := l.id))
    case GroupItem(g) =>
      var d := replies.group(PropKey(g.groupId)).(tag := g.groupId);
      g.data == Some(d) && g.lights == Members(d.lights, known)
    case SceneItem(s) => s.data == Some(replies.scene(PropKey(s.sceneId)).(tag := s.sceneId))
    case Missing => true
  }

  /** The `data` setter of a refreshed element returned: a light's always
      does; a group's unless the bridge's answer lists a light the cache
      lacks; a scene's unless its answer lists such a light or its held
      target lightstates name a light that is not a member with a state. */
  predicate Loads(e: Element, replies: Replies, known: map<string, LightElement>)
    reads ObjectOf(e), known.Values
  {
    match e
    case GroupItem(g) => AllCached(replies.group(PropKey(g.groupId)).lights, known)
    case SceneItem(s) =>
      var d := replies.scene(PropKey(s.sceneId));
      AllCached(d.lights, known) && SceneFlags(s.lightstates, LiveStates(Members(d.lights, known))).Some?
    case _ => true
  }

  /** The id an element's GET uses: `lightId`, `groupId` or `sceneId`. */
  function IdOf(e: Element): Option<string>
    reads ObjectOf(e)
  {
    match e
    case LightItem(l) => l.id
    case GroupItem(g) => g.groupId
    case SceneItem(s) => s.sceneId
    case Missing => None
  }

  /** The GET that refreshes an element with the given id; the undefined
      entry sends none. */
  function Fetch(e: Element, id: Option<string>): seq<Request>
  {
    match e
    case LightItem(_) => [Request(Path("lights", id), GET, NoBody)]
    case GroupItem(_) => [Request(Path("groups", id), GET, NoBody)]
    case SceneItem(_) => [Request(Path("scenes", id), GET, NoBody)]
    case Missing => []
  }

  /** The GET that refreshes an element. */
  function Refetch(e: Element): seq<Request>
    reads ObjectOf(e)
  {
    Fetch(e, IdOf(e))
  }

  /** The GETs for a list of elements with the given ids. */
  function Fetches(es: seq<Element>, ids: seq<Option<string>>): seq<Request>
    requires |ids| == |es|
  {
    if es == [] then [] else Fetches(es[..|es| - 1], ids[..|es| - 1]) + Fetch(es[|es| - 1], ids[|es| - 1])
  }

  /** The ids of a list of elements. */
  function IdsOf(es: seq<Element>): (ids: seq<Option<string>>)
    reads Objects(es)
    ensures |ids| == |es|
    ensures forall j :: 0 <= j < |es| ==> ids[j] == IdOf(es[j])
  {
    if es == [] then [] else IdsOf(es[..|es| - 1]) + [IdOf(es[|es| - 1])]
  }

  /** With the current ids, the GETs for a prefix are its refetches. */
  lemma {:induction false} FetchesCurrent(es: seq<Element>, ids: seq<Option<string>>, n: nat)
    requires |ids| == |es| && n <= |es|
    requires forall j {:trigger es[j]} :: 0 <= j < |es| ==> ids[j] == IdOf(es[j])
    ensures Fetches(es[..n], ids[..n]) == Refetches(es[..n])
  {
    if n > 0 {
      FetchesCurrent(es, ids, n - 1);
      assert es[..n][..n - 1] == es[..n - 1];
      assert ids[..n][..n - 1] == ids[..n - 1];
    }
  }

  /** The object an element refers to. */
  function ObjectOf(e: Element): set<object>
  {
    match e
    case LightItem(l) => {l}
    case GroupItem(g) => {g}
    case SceneItem(s) => {s}
    case Missing => {}
  }

  /** The objects an element list refers to. */
  function Objects(es: seq<Element>): (r: set<object>)
    ensures forall i :: 0 <= i < |es| ==> ObjectOf(es[i]) <= r
  {
    if es == [] then {} else Objects(es[..|es| - 1]) + ObjectOf(es[|es| - 1])
  }

  function Refetches(es: seq<Element>): seq<Request>
    reads Objects(es)
  {
    if es == [] then [] else Refetches(es[..|es| - 1]) + Refetch(es[|es| - 1])
  }

  /** What the bridge answers to the GET of one light, group or scene. */
  datatype Replies = Replies(
    light: string -> LightData,
    group: string -> GroupData,
    scene: string -> SceneData)

  /** No two keys hold the same element. */
  predicate Injective<V(==)>(m: map<string, V>)
  {
    forall a, b {:trigger Apart(m, a, b)} :: a in m && b in m && a != b ==> Apart(m, a, b)
  }

  /** Keys `a` and `b` hold different elements. */
  predicate Apart<V(==)>(m: map<string, V>, a: string, b: string)
    requires a in m && b in m
  {
    m[a] != m[b]
  }

  /** A new key holding an element no other key holds keeps a map
      injective. */
  lemma InjectiveAdd<V>(m: map<string, V>, k: string, v: V)
    requires Injective(m) && k !in m
    requires forall a :: a in m ==> m[a] != v
    ensures Injective(m[k := v])
  {
    var m' := m[k := v];
    forall a, b | a in m' && b in m' && a != b
      ensures Apart(m', a, b)
    {
      if a != k && b != k {
        assert Apart(m, a, b);
      }
    }
  }

  /** Removing a key keeps a map injective. */
  lemma InjectiveRemove<V>(m: map<string, V>, k: string)
    requires Injective(m)
    ensures Injective(m - {k})
  {
    var m' := m - {k};
    forall a, b | a in m' && b in m' && a != b
      ensures Apart(m', a, b)
    {
      assert Apart(m, a, b);
    }
  }

  /** Storing an element no other key holds keeps a map injective. */
  lemma InjectiveUpdate<V>(m: map<string, V>, k: string, v: V)
    requires Injective(m)
    requires forall a :: a in m ==> m[a] != v
    ensures Injective(m[k := v])
  {
    var m' := m[k := v];
    forall a, b | a in m' && b in m' && a != b
      ensures Apart(m', a, b)
    {
      if a != k && b != k {
        assert Apart(m, a, b);
      }
    }
  }

  // ------------------------------------------------------------ registry

  /** The key of `BridgeConnector.instances`. */
  function InstanceKey(host: string, user: string): string
  {
    host + "|" + user
  }

  /** The data the connector hands to an element: the bridge's entry with
      its key attached as `_id`. */
  function Tagged(id: string, d: LightData): (r: LightData)
    ensures r.tag == Some(id) && r.name == d.name && r.state == d.state
  {
    d.(tag := Some(id))
  }

  /** The room `_fillGroups` leaves on a light after the first `n`
      entries: the name of the last room among them that lists it, or the
      room it had. */
  function RoomAfter(entries: seq<(string, GroupData)>, n: nat, lightId: string, before: string): string
    requires n <= |entries|
  {
    if n == 0 then before
    else
      var d := entries[n - 1].1;
      if d.groupType == "Room" && lightId in d.lights then d.name
      else RoomAfter(entries, n - 1, lightId, before)
  }

  /** Every light id one of the first `n` entries lists. */
  function ListedLights(entries: seq<(string, GroupData)>, n: nat): set<string>
    requires n <= |entries|
  {
    if n == 0 then {}
    else
      var listed := entries[n - 1].1.lights;
      ListedLights(entries, n - 1) + Elements(listed)
  }

  /** A light id is in `ListedLights` exactly when one of the first `n`
      entries lists it. */
  lemma {:induction false} ListedLightsMeaning(entries: seq<(string, GroupData)>, n: nat, l: string)
    requires n <= |entries|
    ensures l in ListedLights(entries, n) <==> exists i :: 0 <= i < n && l in entries[i].1.lights
  {
    if n > 0 {
      ListedLightsMeaning(entries, n - 1, l);
      if l in entries[n - 1].1.lights {
        assert exists i :: 0 <= i < n && l in entries[i].1.lights;
      }
    }
  }

  /** The first `n` entries list no more lights than the first `m`. */
  lemma {:induction false} ListedLightsGrow(entries: seq<(string, GroupData)>, n: nat, m: nat)
    requires n <= m <= |entries|
    ensures ListedLights(entries, n) <= ListedLights(entries, m)
  {
    if n < m {
      ListedLightsGrow(entries, n, m - 1);
    }
  }

  /** Every light the first `n` entries list is in the cache; otherwise
      the group's `data` setter throws while rendering that entry's
      members. */
  predicate ListsCached(entries: seq<(string, GroupData)>, n: nat, lights: map<string, LightElement>)
    requires n <= |entries|
  {
    forall i :: 0 <= i < n ==> AllCached(entries[i].1.lights, lights)
  }

  /** A room lists only lights the cache holds: what setting a member's
      room needs. A cached member list is one. */
  predicate RoomKnown(d: GroupData, lights: map<string, LightElement>)
    ensures AllCached(d.lights, lights) ==> RoomKnown(d, lights)
  {
    d.groupType == "Room" ==> forall l :: l in d.lights ==> l in lights
  }

  // ---------------------------------------------------- lightstate usage

  /** The number of lightstates a bridge can store. */
  const MaxLightStates: nat := 2048

  /** The result of `queryLightstateInformation`. */
  datatype LightstateInfo = LightstateInfo(max: nat, num: nat)

  /** One call of the progress callback: states counted so far, the
      maximum, the number of the scene just counted (from 1) and the number
      of scenes. */
  datatype Report = Report(numStates: nat, maxStates: nat, current: nat, numScenes: nat)

  /** The lightstates the given scenes use, as the bridge describes each
      scene (`details`); `None` where one of them has no `lightstates`,
      which makes `Object.keys` throw. */
  function StatesTotal(ids: seq<string>, details: string -> SceneData): Option<nat>
  {
    if ids == [] then Some(0)
    else
      var front := StatesTotal(ids[..|ids| - 1], details);
      var ls := details(ids[|ids| - 1]).lightstates;
      if front.None? || ls.None? then None else Some(front.value + |ls.value|)
  }

  /** The count fails exactly when some scene has no lightstates. */
  lemma {:induction false} StatesTotalFails(ids: seq<string>, details: string -> SceneData)
    ensures StatesTotal(ids, details).None? <==> exists i :: 0 <= i < |ids| && details(ids[i]).lightstates.None?
  {
    if ids != [] {
      var front := ids[..|ids| - 1];
      StatesTotalFails(front, details);
      if exists i :: 0 <= i < |front| && details(front[i]).lightstates.None? {
        var i :| 0 <= i < |front| && details(front[i]).lightstates.None?;
        assert ids[i] == front[i];
      }
      if exists i :: 0 <= i < |ids| && details(ids[i]).lightstates.None? {
        var i :| 0 <= i < |ids| && details(ids[i]).lightstates.None?;
        if i < |front| {
          assert front[i] == ids[i];
        }
      }
    }
  }

  /** A scene without lightstates makes the whole count fail. */
  lemma StatesTotalStops(ids: seq<string>, i: nat, details: string -> SceneData)
    requires i < |ids| && details(ids[i]).lightstates.None?
    ensures StatesTotal(ids, details).None?
  {
    StatesTotalFails(ids, details);
  }

  /** Counting is additive over consecutive runs of scenes. */
  lemma {:induction false} StatesTotalAppend(a: seq<string>, b: seq<string>, details: string -> SceneData)
    ensures StatesTotal(a + b, details) ==
      if StatesTotal(a, details).None? || StatesTotal(b, details).None? then None
      else Some(StatesTotal(a, details).value + StatesTotal(b, details).value)
  {
    if b == [] {
      assert a + b == a;
    } else {
      var front := b[..|b| - 1];
      StatesTotalAppend(a, front, details);
      assert (a + b)[..|a + b| - 1] == a + front;
      assert (a + b)[|a + b| - 1] == b[|b| - 1];
    }
  }

  /** The progress reported after each scene of `ids`, out of `numScenes`
      scenes: the running count, the maximum and the scene's number. */
  function ProgressReports(ids: seq<string>, numScenes: nat, details: string -> SceneData): (r: seq<Report>)
    requires StatesTotal(ids, details).Some?
    ensures |r| == |ids|
    ensures forall i :: 0 <= i < |r| ==>
      r[i].current == i + 1 && r[i].maxStates == MaxLightStates && r[i].numScenes == numScenes
    ensures ids != [] ==> r[|r| - 1].numStates == StatesTotal(ids, details).value
  {
    if ids == [] then []
    else
      ProgressReports(ids[..|ids| - 1], numScenes, details)
        + [Report(StatesTotal(ids, details).value, MaxLightStates, |ids|, numScenes)]
  }

  /** One more scene adds its GET and, when its count succeeds, its
      report. */
  lemma QueryStep(ids: seq<string>, i: nat, details: string -> SceneData)
    requires i < |ids|
    ensures SceneFetches(ids[..i + 1]) == SceneFetches(ids[..i]) + [Request("scenes/" + ids[i], GET, NoBody)]
    ensures StatesTotal(ids[..i + 1], details) ==
      if StatesTotal(ids[..i], details).None? || details(ids[i]).lightstates.None? then None
      else Some(StatesTotal(ids[..i], details).value + |details(ids[i]).lightstates.value|)
    ensures StatesTotal(ids[..i + 1], details).Some? ==>
      ProgressReports(ids[..i + 1], |ids|, details) == ProgressReports(ids[..i], |ids|, details)
        + [Report(StatesTotal(ids[..i + 1], details).value, MaxLightStates, i + 1, |ids|)]
  {
    assert ids[..i + 1][..i] == ids[..i];
  }

  /** The GET of each scene, in order. */
  function SceneFetches(ids: seq<string>): (r: seq<Request>)
    ensures |r| == |ids|
    ensures forall i :: 0 <= i < |r| ==> r[i] == Request("scenes/" + ids[i], GET, NoBody)
  {
    if ids == [] then [] else SceneFetches(ids[..|ids| - 1]) + [Request("scenes/" + ids[|ids| - 1], GET, NoBody)]
  }

  class BridgeConnector {
    const host: string
    const user: string
    const protocol: string
    var lights: map<string, LightElement>
    /** Only saved groups, keyed by their bridge id. */
    var groups: map<string, LightGroupElement>
    var scenes: map<string, LightSceneElement>
    /** Group elements not (yet) saved on the bridge. */
    var groupsUnSaved: seq<LightGroupElement>
    var scenesUnSaved: seq<LightSceneElement>
    /** The ids `groupedLights` maps to true. */
    var groupedLights: set<string>
    var log: seq<Request>
    var events: seq<Event>

    /** Each id of the maps holds its own element. */
    predicate Valid()
      reads this
    {
      Injective(lights) && Injective(groups) && Injective(scenes)
    }

    constructor (host: string, user: string, protocol: string)
      ensures this.host == host && this.user == user && this.protocol == protocol
      ensures lights == map[] && groups == map[] && scenes == map[]
      ensures groupsUnSaved == [] && scenesUnSaved == [] && groupedLights == {}
      ensures log == [] && events == []
      ensures Valid()
    {
      this.host := host;
      this.user := user;
      this.protocol := protocol;
      lights := map[];
      groups := map[];
      scenes := map[];
      groupsUnSaved := [];
      scenesUnSaved := [];
      groupedLights := {};
      log := [];
      events := [];
    }

    /** `newGroup`: a fresh draft named "New Group" in mode `unsaved` joins
        the draft list, and a `newGroup` event announces it. */
    method NewGroup() returns (group: LightGroupElement)
      modifies this`groupsUnSaved, this`events
      ensures fresh(group) && group.name == "New Group" && group.mode == Unsaved
      ensures group.groupId == None && group.lights == map[] && group.addedLights == map[]
      ensures groupsUnSaved == old(groupsUnSaved) + [group]
      ensures events == old(events) + [GroupCreated(group)]
    {
      group := new LightGroupElement();
      group.name := "New Group";
      group.mode := Unsaved;
      groupsUnSaved := groupsUnSaved + [group];
      events := events + [GroupCreated(group)];
    }

    /** `newScene`: the same for scenes. */
    method NewScene() returns (scene: LightSceneElement)
      modifies this`scenesUnSaved, this`events
      ensures fresh(scene) && scene.name == "New Scene" && scene.mode == Unsaved
      ensures scene.sceneId == None && scene.lights == map[] && scene.addedLights == map[]
      ensures scenesUnSaved == old(scenesUnSaved) + [scene]
      ensures events == old(events) + [SceneCreated(scene)]
    {
      scene := new LightSceneElement();
      scene.name := "New Scene";
      scene.mode := Unsaved;
      scenesUnSaved := scenesUnSaved + [scene];
      events := events + [SceneCreated(scene)];
    }

    /** `deleteScene`: a draft (no truthy id) is filtered out of the draft
        list without a request; a saved scene costs one DELETE and leaves
        the cache only when the bridge answers with a success. A change
        event follows in every case. */
    method DeleteScene(scene: LightSceneElement, answer: Answer)
      requires Valid()
      modifies this`scenesUnSaved, this`scenes, this`log, this`events
      ensures Valid()
      ensures !TruthyId(scene.sceneId) ==>
        scenesUnSaved == Without(old(scenesUnSaved), scene) && scenes == old(scenes)
        && log == old(log) && events == old(events) + [ConfigChange]
      ensures TruthyId(scene.sceneId) ==>
        scenesUnSaved == old(scenesUnSaved)
        && log == old(log) + [Request(Path("scenes", scene.sceneId), DELETE, NoBody)]
      ensures TruthyId(scene.sceneId) && Succeeded(answer) ==>
        scenes == old(scenes) - {PropKey(scene.sceneId)} && events == old(events) + [ConfigChange]
      ensures TruthyId(scene.sceneId) && !Succeeded(answer) ==>
        scenes == old(scenes) && events == old(events) + [ErrorReported, ConfigChange]
    {
      if !TruthyId(scene.sceneId) {
        scenesUnSaved := Without(scenesUnSaved, scene);
      } else {
        log := log + [Request(Path("scenes", scene.sceneId), DELETE, NoBody)];
        if Succeeded(answer) {
          InjectiveRemove(scenes, PropKey(scene.sceneId));
          scenes := scenes - {PropKey(scene.sceneId)};
        } else {
          events := events + [ErrorReported];
        }
      }
      events := events + [ConfigChange];
    }

    /** `deleteGroup`: the same for groups. */
    method DeleteGroup(group: LightGroupElement, answer: Answer)
      requires Valid()
      modifies this`groupsUnSaved, this`groups, this`log, this`events
      ensures Valid()
      ensures !TruthyId(group.groupId) ==>
        groupsUnSaved == Without(old(groupsUnSaved), group) && groups == old(groups)
        && log == old(log) && events == old(events) + [ConfigChange]
      ensures TruthyId(group.groupId) ==>
        groupsUnSaved == old(groupsUnSaved)
        && log == old(log) + [Request(Path("groups", group.groupId), DELETE, NoBody)]
      ensures TruthyId(group.groupId) && Succeeded(answer) ==>
        groups == old(groups) - {PropKey(group.groupId)} && events == old(events) + [ConfigChange]
      ensures TruthyId(group.groupId) && !Succeeded(answer) ==>
        groups == old(groups) && events == old(events) + [ErrorReported, ConfigChange]
    {
      if !TruthyId(group.groupId) {
        groupsUnSaved := Without(groupsUnSaved, group);
      } else {
        log := log + [Request(Path("groups", group.groupId), DELETE, NoBody)];
        if Succeeded(answer) {
          InjectiveRemove(groups, PropKey(group.groupId));
          groups := groups - {PropKey(group.groupId)};
        } else {
          events := events + [ErrorReported];
        }
      }
      events := events + [ConfigChange];
    }

    /** `createScene`: a POST with the name and the member ids in key
        order (`order`). Without a created id in the answer only an error
        is reported. With one, a GET of the new scene (answered by
        `reply`) and one `{on: true}` PUT per member follow; the scene is
        saved and takes the reply, tagged with the id, through its `data`
        setter. If the setter throws (`completed` false: a listed light the
        cache lacks, or a target lightstate for a light that is not a
        member with a state) the scene stays a draft; otherwise it leaves
        the drafts, is cached under the id, and a change event fires. */
    method CreateScene(scene: LightSceneElement, order: seq<string>, answer: Answer, reply: SceneData)
      returns (completed: bool)
      requires Valid() && Enumerates(order, scene.lights.Keys)
      modifies this`scenesUnSaved, this`scenes, this`log, this`events, scene
      ensures old(scene !in scenes.Values) ==> Valid()
      ensures CreatedId(answer).None? ==>
        !completed && unchanged(scene) && scenes == old(scenes) && scenesUnSaved == old(scenesUnSaved)
        && log == old(log) + [Request("scenes", POST, NewSceneBody(old(scene.name), order, false))]
        && events == old(events) + [ErrorReported]
      ensures CreatedId(answer).Some? ==> var id := CreatedId(answer).value;
        log == old(log) + [Request("scenes", POST, NewSceneBody(old(scene.name), order, false)),
                           Request("scenes/" + id, GET, NoBody)] + SwitchOnPuts(id, order)
        && scene.mode == Saved && scene.data == Some(reply.(tag := Some(id)))
        && scene.name == reply.name && scene.lights == Members(reply.lights, lights)
        && (completed <==> AllCached(reply.lights, lights) && scene.Flagged())
      ensures CreatedId(answer).Some? && completed ==>
        scenesUnSaved == Without(old(scenesUnSaved), scene)
        && scenes == old(scenes)[CreatedId(answer).value := scene]
        && events == old(events) + [ConfigChange]
      ensures CreatedId(answer).Some? && !completed ==>
        scenes == old(scenes) && scenesUnSaved == old(scenesUnSaved) && events == old(events)
    {
      log := log + [Request("scenes", POST, NewSceneBody(scene.name, order, false))];
      var sceneId := CreatedId(answer);
      if sceneId.None? {
        events := events + [ErrorReported];
        return false;
      }
      completed := StoreScene(scene, sceneId.value, order, reply);
    }

    /** The success path of `createScene` once the bridge returned `id`. */
    method StoreScene(scene: LightSceneElement, id: string, order: seq<string>, reply: SceneData)
      returns (completed: bool)
      requires Valid()
      modifies this`scenesUnSaved, this`scenes, this`log, this`events, scene
      ensures old(scene !in scenes.Values) ==> Valid()
      ensures log == old(log) + [Request("scenes/" + id, GET, NoBody)] + SwitchOnPuts(id, order)
      ensures scene.mode == Saved && scene.data == Some(reply.(tag := Some(id)))
      ensures scene.name == reply.name && scene.lights == Members(reply.lights, lights)
      ensures completed <==> AllCached(reply.lights, lights) && scene.Flagged()
      ensures completed ==>
        scenesUnSaved == Without(old(scenesUnSaved), scene) && scenes == old(scenes)[id := scene]
        && events == old(events) + [ConfigChange]
      ensures !completed ==> scenes == old(scenes) && scenesUnSaved == old(scenesUnSaved) && events == old(events)
    {
      log := log + [Request("scenes/" + id, GET, NoBody)] + SwitchOnPuts(id, order);
      scene.mode := Saved;
      completed := scene.SetData(Some(reply.(tag := Some(id))), lights);
      if completed {
        RegisterScene(scene, id);
      }
    }

    /** The tail of `createScene` once the setter returned: the scene
        leaves the drafts, is cached under its id, and a change event
        fires. */
    method RegisterScene(scene: LightSceneElement, id: string)
      requires Valid()
      modifies this`scenesUnSaved, this`scenes, this`events
      ensures scene !in old(scenes.Values) ==> Valid()
      ensures scenesUnSaved == Without(old(scenesUnSaved), scene) && scenes == old(scenes)[id := scene]
      ensures events == old(events) + [ConfigChange]
    {
      scenesUnSaved := Without(scenesUnSaved, scene);
      if scene !in scenes.Values {
        InjectiveUpdate(scenes, id, scene);
      }
      scenes := scenes[id := scene];
      events := events + [ConfigChange];
    }

    /** `createGroup`: the same for groups, posted with type "LightGroup";
        the group's setter throws (`completed` false) exactly when the reply
        lists a light the cache lacks, and the group then stays a draft. */
    method CreateGroup(group: LightGroupElement, order: seq<string>, answer: Answer, reply: GroupData)
      returns (completed: bool)
      requires Valid() && Enumerates(order, group.lights.Keys)
      modifies this`groupsUnSaved, this`groups, this`log, this`events, group
      ensures old(group !in groups.Values) ==> Valid()
      ensures CreatedId(answer).None? ==>
        !completed && unchanged(group) && groups == old(groups) && groupsUnSaved == old(groupsUnSaved)
        && log == old(log) + [Request("groups", POST, NewGroupBody(old(group.name), order, "LightGroup"))]
        && events == old(events) + [ErrorReported]
      ensures CreatedId(answer).Some? ==> var id := CreatedId(answer).value;
        log == old(log) + [Request("groups", POST, NewGroupBody(old(group.name), order, "LightGroup")),
                           Request("groups/" + id, GET, NoBody)]
        && group.mode == Saved && group.data == Some(reply.(tag := Some(id)))
        && group.name == reply.name && group.lights == Members(reply.lights, lights)
        && (completed <==> AllCached(reply.lights, lights))
      ensures CreatedId(answer).Some? && completed ==>
        groupsUnSaved == Without(old(groupsUnSaved), group)
        && groups == old(groups)[CreatedId(answer).value := group]
        && events == old(events) + [ConfigChange]
      ensures CreatedId(answer).Some? && !completed ==>
        groups == old(groups) && groupsUnSaved == old(groupsUnSaved) && events == old(events)
    {
      log := log + [Request("groups", POST, NewGroupBody(group.name, order, "LightGroup"))];
      var groupId := CreatedId(answer);
      if groupId.None? {
        events := events + [ErrorReported];
        return false;
      }
      var id := groupId.value;
      log := log + [Request("groups/" + id, GET, NoBody)];
      group.mode := Saved;
      completed := group.SetData(Some(reply.(tag := Some(id))), lights);
      if !completed {
        return;
      }
      groupsUnSaved := Without(groupsUnSaved, group);
      if group !in old(groups.Values) {
        InjectiveUpdate(groups, id, group);
      }
      groups := groups[id := group];
      events := events + [ConfigChange];
    }

    /** `updateScene`: a PUT of the name, the member ids and
        `storelightstate`; only on success one PUT per target lightstate
        (`targets`, what the scene's lightstates resolve to) follows. The
        scene is marked saved and a change event fires even when the bridge
        reports an error. */
    method UpdateScene(scene: LightSceneElement, order: seq<string>, answer: Answer, targets: Lightstates)
      requires Enumerates(order, scene.lights.Keys)
      modifies this`log, this`events, scene`mode
      ensures scene.mode == Saved
      ensures var put := Request(Path("scenes", scene.sceneId), PUT, SceneMembersBody(scene.name, order, true));
        if Succeeded(answer) then
          log == old(log) + [put] + TargetPuts(PropKey(scene.sceneId), targets)
          && events == old(events) + [ConfigChange]
        else
          log == old(log) + [put] && events == old(events) + [ErrorReported, ConfigChange]
    {
      log := log + [Request(Path("scenes", scene.sceneId), PUT, SceneMembersBody(scene.name, order, true))];
      if !Succeeded(answer) {
        events := events + [ErrorReported];
      } else {
        log := log + TargetPuts(PropKey(scene.sceneId), targets);
      }
      scene.mode := Saved;
      events := events + [ConfigChange];
    }

    /** `updateGroup`: a PUT of the name and the member ids; the group is
        marked saved and a change event fires even on an error answer. */
    method UpdateGroup(group: LightGroupElement, order: seq<string>, answer: Answer)
      requires Enumerates(order, group.lights.Keys)
      modifies this`log, this`events, group`mode
      ensures group.mode == Saved
      ensures log == old(log) + [Request(Path("groups", group.groupId), PUT, GroupMembersBody(group.name, order))]
      ensures events == old(events) + (if Succeeded(answer) then [] else [ErrorReported]) + [ConfigChange]
    {
      log := log + [Request(Path("groups", group.groupId), PUT, GroupMembersBody(group.name, order))];
      if !Succeeded(answer) {
        events := events + [ErrorReported];
      }
      group.mode := Saved;
      events := events + [ConfigChange];
    }

    /** `updateLight`: a PUT of the light's name; an error answer is
        reported. */
    method UpdateLight(light: LightElement, answer: Answer)
      modifies this`log, this`events
      ensures log == old(log) + [Request(Path("lights", light.id), PUT, RenameBody(light.name))]
      ensures events == old(events) + (if Succeeded(answer) then [] else [ErrorReported])
    {
      log := log + [Request(Path("lights", light.id), PUT, RenameBody(light.name))];
      if !Succeeded(answer) {
        events := events + [ErrorReported];
      }
    }

    /** `saveScene`: a draft without a truthy id is created, any other
        scene updated. `completed` is false only where creating it threw. */
    method SaveScene(scene: LightSceneElement, order: seq<string>, answer: Answer, reply: SceneData,
                     targets: Lightstates) returns (completed: bool)
      requires Valid() && Enumerates(order, scene.lights.Keys)
      modifies this`scenesUnSaved, this`scenes, this`log, this`events, scene
      ensures old(scene !in scenes.Values) ==> Valid()
      ensures old(TruthyId(scene.sceneId)) ==> completed && scene.mode == Saved && scenes == old(scenes)
      ensures !old(TruthyId(scene.sceneId)) && completed ==>
        CreatedId(answer).Some? && scenes == old(scenes)[CreatedId(answer).value := scene]
      ensures |log| > |old(log)|
      ensures old(TruthyId(scene.sceneId)) ==> scene.lights == old(scene.lights) && scene.addedLights == old(scene.addedLights)
      ensures log[|old(log)|] == if old(TruthyId(scene.sceneId))
        then Request(Path("scenes", old(scene.sceneId)), PUT, SceneMembersBody(old(scene.name), order, true))
        else Request("scenes", POST, NewSceneBody(old(scene.name), order, false))
    {
      if !TruthyId(scene.sceneId) {
        completed := CreateScene(scene, order, answer, reply);
      } else {
        UpdateScene(scene, order, answer, targets);
        completed := true;
      }
    }

    /** `saveGroup`: the same for groups. */
    method SaveGroup(group: LightGroupElement, order: seq<string>, answer: Answer, reply: GroupData)
      returns (completed: bool)
      requires Valid() && Enumerates(order, group.lights.Keys)
      modifies this`groupsUnSaved, this`groups, this`log, this`events, group
      ensures old(group !in groups.Values) ==> Valid()
      ensures old(TruthyId(group.groupId)) ==> completed && group.mode == Saved && groups == old(groups)
      ensures !old(TruthyId(group.groupId)) && CreatedId(answer).Some? ==>
        group.mode == Saved && (completed <==> AllCached(reply.lights, lights))
        && groups == if completed then old(groups)[CreatedId(answer).value := group] else old(groups)
      ensures !old(TruthyId(group.groupId)) && CreatedId(answer).None? ==> !completed && groups == old(groups)
      ensures |log| > |old(log)|
      ensures old(TruthyId(group.groupId)) ==> group.lights == old(group.lights) && group.addedLights == old(group.addedLights)
      ensures log[|old(log)|] == if old(TruthyId(group.groupId))
        then Request(Path("groups", old(group.groupId)), PUT, GroupMembersBody(old(group.name), order))
        else Request("groups", POST, NewGroupBody(old(group.name), order, "LightGroup"))
    {
      if !TruthyId(group.groupId) {
        completed := CreateGroup(group, order, answer, reply);
      } else {
        UpdateGroup(group, order, answer);
        completed := true;
      }
    }

    /** `_fillLights`: every entry of the response is tagged with its id and
        given to the light cached under that id, created when there is
        none. Cached lights the response does not list stay as they are:
        only the listed ones are in the frame. */
    method FillLights(entries: seq<(string, LightData)>)
      requires Valid() && DistinctKeys(entries)
      modifies this`lights, CachedLights(entries)`id, CachedLights(entries)`data, CachedLights(entries)`name,
        CachedLights(entries)`on
      ensures Valid()
      ensures forall id :: id in lights <==> id in old(lights) || id in KeysOf(entries, |entries|)
      ensures forall id :: id in old(lights) ==> lights[id] == old(lights)[id]
      ensures forall id :: id in lights && id !in old(lights) ==> fresh(lights[id]) && lights[id].mode == Saved
      ensures forall i {:trigger ShownAt(entries, i, lights)} :: 0 <= i < |entries| ==> ShownAt(entries, i, lights)
    {
      var i := 0;
      while i < |entries|
        invariant 0 <= i <= |entries|
        invariant Valid()
        invariant forall id :: id in lights <==> id in old(lights) || id in KeysOf(entries, i)
        invariant forall id :: id in old(lights) ==> lights[id] == old(lights)[id]
        invariant forall id :: id in lights && id !in old(lights) ==> fresh(lights[id]) && lights[id].mode == Saved
        invariant forall j {:trigger ShownAt(entries, j, lights)} :: 0 <= j < i ==> ShownAt(entries, j, lights)
      {
        KeysOfGrow(entries, i + 1, |entries|);
        FillNextLight(entries, i);
        i := i + 1;
      }
    }

    /** Entry `i` of `_fillLights`: it is shown, and the entries before it
        still are. */
    method FillNextLight(entries: seq<(string, LightData)>, i: nat)
      requires Valid() && DistinctKeys(entries) && i < |entries|
      requires forall j {:trigger ShownAt(entries, j, lights)} :: 0 <= j < i ==> ShownAt(entries, j, lights)
      modifies this`lights, CachedLight(entries[i].0)`id, CachedLight(entries[i].0)`data,
        CachedLight(entries[i].0)`name, CachedLight(entries[i].0)`on
      ensures Valid()
      ensures entries[i].0 in lights && lights == old(lights)[entries[i].0 := lights[entries[i].0]]
      ensures entries[i].0 in old(lights) ==> lights[entries[i].0] == old(lights)[entries[i].0]
      ensures entries[i].0 !in old(lights) ==> fresh(lights[entries[i].0]) && lights[entries[i].0].mode == Saved
      ensures forall j {:trigger ShownAt(entries, j, lights)} :: 0 <= j <= i ==> ShownAt(entries, j, lights)
    {
      var (id, d) := entries[i];
      ghost var before := lights;
      label step:
      FillLight(id, d);
      forall j | 0 <= j < i
        ensures ShownAt(entries, j, lights)
      {
        assert old@step(ShownAt(entries, j, lights));
        var k := entries[j].0;
        assert KeysApart(entries, j, i);
        assert k != id && k in before;
        if id in before {
          assert Apart(before, k, id);
        }
      }
    }

    /** The cached lights that the entries list. */
    function CachedLights<V>(entries: seq<(string, V)>): set<LightElement>
      reads this
    {
      set k | k in lights && k in KeysOf(entries, |entries|) :: lights[k]
    }

    /** The light cached under `id`, if any: the one element a fill entry
        may change. */
    function CachedLight(id: string): set<LightElement>
      reads this
    {
      if id in lights then {lights[id]} else {}
    }

    /** One entry of `_fillLights`. */
    method FillLight(id: string, d: LightData)
      requires Valid()
      modifies this`lights, CachedLight(id)`id, CachedLight(id)`data, CachedLight(id)`name, CachedLight(id)`on
      ensures Valid()
      ensures id in lights && lights == old(lights)[id := lights[id]]
      ensures id in old(lights) ==> lights[id] == old(lights)[id]
      ensures id !in old(lights) ==> fresh(lights[id]) && lights[id].mode == Saved
      ensures Shows(lights[id], id, d)
      ensures lights[id].room == old(if id in lights then lights[id].room else "")
      ensures id in old(lights) ==> lights[id].mode == old(lights[id].mode)
    {
      assert id in lights ==> forall l :: l in lights && l != id ==> Apart(lights, l, id);
      if id !in lights {
        var light := new LightElement();
        InjectiveAdd(lights, id, light);
        lights := lights[id := light];
      }
      lights[id].SetData(Tagged(id, d));
    }

    /** The group cached under `id`, if any: the one element a fill entry
        may change. */
    function Cached(id: string): set<LightGroupElement>
      reads this
    {
      if id in groups then {groups[id]} else {}
    }

    /** `_fillGroups`: every entry is tagged with its id and given to the
        group cached under that id, created in mode `saved` when there is
        none; then each listed light is marked grouped and, for a room,
        gets the room's name. An entry that lists a light the cache does
        not hold makes the group's setter throw before any of its lights is
        marked: `completed` is false and the fill stops there. */
    method FillGroups(entries: seq<(string, GroupData)>) returns (completed: bool)
      requires Valid() && DistinctKeys(entries)
      modifies this`groups, this`groupedLights, lights.Values`room
      modifies groups.Values`groupId, groups.Values`data, groups.Values`name, groups.Values`isRoom, groups.Values`lights
      ensures Valid()
      ensures completed ==> Progress(entries, |entries|, old(groups), old(groupedLights))
      ensures !completed ==> Stopped(entries, |entries|, old(groups), old(groupedLights))
      ensures completed ==> forall i {:trigger DescribedAt(entries, i, groups, lights)} :: 0 <= i < |entries| ==>
        DescribedAt(entries, i, groups, lights)
      ensures completed ==> forall l :: l in lights ==> lights[l].room == RoomAfter(entries, |entries|, l, old(lights[l].room))
    {
      var i := 0;
      while i < |entries|
        invariant 0 <= i <= |entries|
        invariant Valid()
        invariant Progress(entries, i, old(groups), old(groupedLights))
        invariant forall j {:trigger DescribedAt(entries, j, groups, lights)} :: 0 <= j < i ==>
          DescribedAt(entries, j, groups, lights)
        invariant forall l :: l in lights ==> lights[l].room == RoomAfter(entries, i, l, old(lights[l].room))
      {
        NextIsOld(entries, i, groups, old(groups));
        var ok := FillEntry(entries, i, old(groups), old(groupedLights));
        if !ok {
          completed := false;
          return;
        }
        i := i + 1;
      }
      completed := true;
    }

    /** The bookkeeping after `_fillGroups` has handled the first `n`
        entries, given the group cache and grouped set it started from. */
    ghost predicate Progress(entries: seq<(string, GroupData)>, n: nat, groups0: map<string, LightGroupElement>,
                             grouped0: set<string>)
      requires n <= |entries|
      reads this
    {
      && ListsCached(entries, n, lights)
      && Kept(entries, n, groups, groups0)
      && groupedLights == grouped0 + ListedLights(entries, n)
    }

    /** What holds once `_fillGroups` has thrown on one of the first `n`
        entries. */
    ghost predicate Stopped(entries: seq<(string, GroupData)>, n: nat, groups0: map<string, LightGroupElement>,
                            grouped0: set<string>)
      requires n <= |entries|
      reads this
    {
      && !ListsCached(entries, n, lights)
      && Kept(entries, n, groups, groups0)
      && grouped0 <= groupedLights <= grouped0 + ListedLights(entries, n)
    }

    /** Having thrown within the first `n` entries is having thrown within
        the first `m`. */
    lemma StoppedLater(entries: seq<(string, GroupData)>, n: nat, m: nat, groups0: map<string, LightGroupElement>,
                       grouped0: set<string>)
      requires n <= m <= |entries| && Stopped(entries, n, groups0, grouped0)
      ensures Stopped(entries, m, groups0, grouped0)
    {
      ListedLightsGrow(entries, n, m);
      KeysOfGrow(entries, n, m);
    }

    /** One entry of `_fillGroups`, as a step from the state after the
        first `i` entries to the state after the first `i + 1`. */
    method FillEntry(entries: seq<(string, GroupData)>, i: nat, ghost groups0: map<string, LightGroupElement>,
                     ghost grouped0: set<string>) returns (ok: bool)
      requires Valid() && DistinctKeys(entries) && i < |entries|
      requires Progress(entries, i, groups0, grouped0)
      requires forall j {:trigger DescribedAt(entries, j, groups, lights)} :: 0 <= j < i ==>
        DescribedAt(entries, j, groups, lights)
      modifies this`groups, this`groupedLights, lights.Values`room
      modifies Cached(entries[i].0)`groupId, Cached(entries[i].0)`data, Cached(entries[i].0)`name,
        Cached(entries[i].0)`isRoom, Cached(entries[i].0)`lights
      ensures Valid()
      ensures ok ==> Progress(entries, i + 1, groups0, grouped0)
      ensures !ok ==> Stopped(entries, |entries|, groups0, grouped0)
      ensures ok ==> forall j {:trigger DescribedAt(entries, j, groups, lights)} :: 0 <= j <= i ==>
        DescribedAt(entries, j, groups, lights)
      ensures ok ==> forall l :: l in lights ==>
        lights[l].room == (if entries[i].1.groupType == "Room" && l in entries[i].1.lights then entries[i].1.name else old(lights[l].room))
    {
      var d := entries[i].1;
      ghost var before := groups;
      assert Kept(entries, i, groups, groups0);
      assert groupedLights == grouped0 + ListedLights(entries, i);
      assert ListsCached(entries, i, lights);
      ok := DescribeEntry(entries, i);
      assert ListedLights(entries, i + 1) == ListedLights(entries, i) + Elements(d.lights);
      assert Kept(entries, i + 1, groups, groups0) by {
        forall id | id in groups0
          ensures id in groups && groups[id] == groups0[id]
        {
          assert id in before;
        }
        forall id | id in groups && id !in groups0
          ensures id in KeysOf(entries, i + 1)
        {
          if id != entries[i].0 {
            assert id in before;
          }
        }
      }
      assert ListsCached(entries, i + 1, lights) <==> AllCached(d.lights, lights) by {
        if AllCached(d.lights, lights) {
          forall j | 0 <= j < i + 1
            ensures AllCached(entries[j].1.lights, lights)
          {
            if j == i {
              assert entries[j].1 == d;
            }
          }
        }
      }
      if !ok {
        StoppedLater(entries, i + 1, |entries|, groups0, grouped0);
      }
    }

    /** The element work of one entry of `_fillGroups`: the group is filled
        and, unless its setter threw, its member lights marked; the groups
        earlier entries described keep their state. */
    method DescribeEntry(entries: seq<(string, GroupData)>, i: nat) returns (ok: bool)
      requires Valid() && DistinctKeys(entries) && i < |entries|
      requires forall j {:trigger DescribedAt(entries, j, groups, lights)} :: 0 <= j < i ==>
        DescribedAt(entries, j, groups, lights)
      modifies this`groups, this`groupedLights, lights.Values`room
      modifies Cached(entries[i].0)`groupId, Cached(entries[i].0)`data, Cached(entries[i].0)`name,
        Cached(entries[i].0)`isRoom, Cached(entries[i].0)`lights
      ensures Valid()
      ensures entries[i].0 in groups && groups == old(groups)[entries[i].0 := groups[entries[i].0]]
      ensures entries[i].0 in old(groups) ==> groups[entries[i].0] == old(groups)[entries[i].0]
      ensures entries[i].0 !in old(groups) ==> fresh(groups[entries[i].0]) && groups[entries[i].0].mode == Saved
      ensures ok <==> AllCached(entries[i].1.lights, lights)
      ensures ok ==> groupedLights == old(groupedLights) + Elements(entries[i].1.lights)
      ensures !ok ==> groupedLights == old(groupedLights)
      ensures ok ==> forall l :: l in lights ==>
        lights[l].room == (if entries[i].1.groupType == "Room" && l in entries[i].1.lights then entries[i].1.name else old(lights[l].room))
      ensures ok ==> forall j {:trigger DescribedAt(entries, j, groups, lights)} :: 0 <= j <= i ==>
        DescribedAt(entries, j, groups, lights)
    {
      var (id, d) := entries[i];
      ghost var before := groups;
      label step:
      ok := FillGroup(id, d);
      if !ok {
        return;
      }
      label filled:
      var marked := MarkMembers(d);
      assert marked;
      {
        forall j | 0 <= j <= i
          ensures DescribedAt(entries, j, groups, lights)
        {
          var k := entries[j].0;
          if j < i {
            assert old(DescribedAt(entries, j, groups, lights));
            assert KeysApart(entries, j, i);
            assert k != id && k in before;
            assert unchanged@step(before[k]);
          }
          assert unchanged@filled(groups[k]);
        }
      }
    }

    /** The first half of one entry of `_fillGroups`: the group element,
        whose setter throws (`ok` false) when the entry lists a light the
        cache does not hold. */
    method FillGroup(id: string, d: GroupData) returns (ok: bool)
      requires Valid()
      modifies this`groups
      modifies Cached(id)`groupId, Cached(id)`data, Cached(id)`name, Cached(id)`isRoom, Cached(id)`lights
      ensures Valid()
      ensures id in groups && groups == old(groups)[id := groups[id]]
      ensures id in old(groups) ==> groups[id] == old(groups)[id]
      ensures id !in old(groups) ==> fresh(groups[id]) && groups[id].mode == Saved
      ensures Describes(groups[id], id, d, lights)
      ensures ok <==> AllCached(d.lights, lights)
      ensures forall g :: g in old(groups) && g != id ==> unchanged(old(groups)[g])
    {
      assert id in groups ==> forall g :: g in groups && g != id ==> Apart(groups, g, id);
      if id !in groups {
        var group := new LightGroupElement();
        group.mode := Saved;
        InjectiveAdd(groups, id, group);
        groups := groups[id := group];
      }
      ok := groups[id].SetData(Some(d.(tag := Some(id))), lights);
    }

    /** A member light of a room takes the room's name; no other cached
        light changes. */
    method SetRoom(m: string, name: string)
      requires Injective(lights) && m in lights
      modifies {lights[m]}`room
      ensures forall l :: l in lights ==> lights[l].room == if l == m then name else old(lights[l].room)
    {
      lights[m].room := name;
      forall l | l in lights && l != m
        ensures lights[l].room == old(lights[l].room)
      {
        assert Apart(lights, l, m);
      }
    }

    /** The inner loop of `_fillGroups` over a group's member lights. By
        itself it throws at a room's uncached light; within the fill it runs
        only after the setter rendered every member, so it does not. */
    method MarkMembers(d: GroupData) returns (ok: bool)
      requires Injective(lights)
      modifies this`groupedLights, lights.Values`room
      ensures ok <==> RoomKnown(d, lights)
      ensures ok ==> groupedLights == old(groupedLights) + Elements(d.lights)
      ensures !ok ==> old(groupedLights) <= groupedLights <= old(groupedLights) + Elements(d.lights)
      ensures ok ==> forall l :: l in lights ==>
        lights[l].room == (if d.groupType == "Room" && l in d.lights then d.name else old(lights[l].room))
    {
      var k := 0;
      ghost var marked: set<string> := {};
      var room := d.groupType == "Room";
      while k < |d.lights|
        invariant 0 <= k <= |d.lights|
        invariant marked == Elements(d.lights[..k])
        invariant groupedLights == old(groupedLights) + marked
        invariant room ==> marked <= lights.Keys
        invariant !room ==> forall l :: l in lights ==> lights[l].room == old(lights[l].room)
        invariant room ==> forall l :: l in lights ==> lights[l].room == if l in marked then d.name else old(lights[l].room)
      {
        var m := d.lights[k];
        groupedLights := groupedLights + {m};
        if room {
          if m !in lights {
            assert m in Elements(d.lights);
            ok := false;
            return;
          }
          SetRoom(m, d.name);
        }
        assert d.lights[..k + 1] == d.lights[..k] + [m];
        ElementsSnoc(d.lights[..k], m);
        marked := marked + {m};
        k := k + 1;
      }
      assert d.lights[..k] == d.lights;
      ok := true;
    }

    /** `_fillScenes`: a scene is created only for a key the cache lacks;
        it gets the entry tagged with its key through its `data` setter,
        then mode `saved`, and only then joins the cache. A cached scene
        is left as it is, old data and all. Where a new scene's setter
        throws (`SceneLoads` fails), that scene is dropped and the fill
        stops (`completed` is false, entry `n`); otherwise the first `n` =
        all entries are done and the cache map itself is the result. */
    method FillScenes(entries: seq<(string, SceneData)>)
      returns (completed: bool, ghost n: nat, result: map<string, LightSceneElement>)
      requires Valid() && DistinctKeys(entries)
      modifies this`scenes
      ensures Valid() && n <= |entries|
      ensures forall id :: id in old(scenes) ==> id in scenes && scenes[id] == old(scenes)[id]
      ensures forall id :: id in scenes <==> id in old(scenes) || id in KeysOf(entries, n)
      ensures forall id :: id in scenes && id !in old(scenes) ==> fresh(scenes[id])
      ensures forall j {:trigger SceneShownAt(entries, j, scenes, old(scenes.Keys), lights)} :: 0 <= j < n ==>
        SceneShownAt(entries, j, scenes, old(scenes.Keys), lights)
      ensures completed ==> n == |entries| && result == scenes
      ensures completed <==> ScenesLoad(entries, old(scenes.Keys), lights)
      ensures !completed ==>
        n < |entries| && entries[n].0 !in scenes
        && entries[n].0 !in old(scenes) && !SceneLoads(entries[n].1, lights)
    {
      var i := 0;
      while i < |entries|
        invariant 0 <= i <= |entries|
        invariant Valid()
        invariant forall id :: id in old(scenes) ==> id in scenes && scenes[id] == old(scenes)[id]
        invariant forall id :: id in scenes <==> id in old(scenes) || id in KeysOf(entries, i)
        invariant forall id :: id in scenes && id !in old(scenes) ==> fresh(scenes[id])
        invariant forall j {:trigger SceneShownAt(entries, j, scenes, old(scenes.Keys), lights)} :: 0 <= j < i ==>
          SceneShownAt(entries, j, scenes, old(scenes.Keys), lights)
      {
        var (id, d) := entries[i];
        ghost var before := scenes;
        forall j | 0 <= j < i
          ensures entries[j].0 != id
        {
          assert KeysApart(entries, j, i);
        }
        KeysOfMeaning(entries, i, id);
        var ok := FillScene(id, d);
        if !ok {
          completed, n, result := false, i, map[];
          return;
        }
        forall j | 0 <= j < i
          ensures SceneShownAt(entries, j, scenes, old(scenes.Keys), lights)
        {
          assert SceneShownAt(entries, j, before, old(scenes.Keys), lights);
        }
        i := i + 1;
      }
      completed, n, result := true, i, scenes;
      forall j | 0 <= j < |entries| && entries[j].0 !in old(scenes.Keys)
        ensures SceneLoads(entries[j].1, lights)
      {
        assert SceneShownAt(entries, j, scenes, old(scenes.Keys), lights);
      }
    }

    /** One entry of `_fillScenes`. */
    method FillScene(id: string, d: SceneData) returns (completed: bool)
      requires Valid()
      modifies this`scenes
      ensures Valid()
      ensures id in old(scenes) ==> completed && scenes == old(scenes)
      ensures id !in old(scenes) ==> (completed <==> SceneLoads(d, lights))
      ensures id !in old(scenes) && !completed ==> scenes == old(scenes)
      ensures id !in old(scenes) && completed ==>
        id in scenes && scenes == old(scenes)[id := scenes[id]] && fresh(scenes[id])
        && SceneShows(scenes[id], id, d, lights)
    {
      if id in scenes {
        return true;
      }
      var scene := new LightSceneElement();
      completed := scene.SetData(Some(d.(tag := Some(id))), lights);
      assert scene.lightstates == d.lightstates && scene.lights == Members(d.lights, lights);
      assert completed <==> SceneLoads(d, lights);
      if !completed {
        return;
      }
      scene.mode := Saved;
      InjectiveAdd(scenes, id, scene);
      scenes := scenes[id := scene];
    }

    /** `updateElement`: the element's GET, and the answer, tagged with the
        element's id, stored through its `data` setter. The undefined entry
        is only reported on the console. `ok` is false where a group's or
        a scene's setter throws. */
    method UpdateElement(e: Element, replies: Replies) returns (ok: bool)
      modifies this`log, ObjectOf(e)
      ensures IdOf(e) == old(IdOf(e))
      ensures log == old(log) + Refetch(e)
      ensures Refreshed(e, replies, lights)
      ensures ok <==> Loads(e, replies, lights)
    {
      ok := true;
      match e
      case LightItem(l) =>
        log := log + [Request(Path("lights", l.id), GET, NoBody)];
        l.SetData(replies.light(PropKey(l.id)).(tag := l.id));
      case GroupItem(g) =>
        log := log + [Request(Path("groups", g.groupId), GET, NoBody)];
        ok := g.SetData(Some(replies.group(PropKey(g.groupId)).(tag := g.groupId)), lights);
      case SceneItem(sc) =>
        log := log + [Request(Path("scenes", sc.sceneId), GET, NoBody)];
        ok := sc.SetData(Some(replies.scene(PropKey(sc.sceneId)).(tag := sc.sceneId)), lights);
      case Missing =>
    }

    /** One step of `updateFor`: refreshes `list[i]`, leaving every other
        element of the (duplicate-free) list as it was. */
    method RefreshNext(list: seq<Element>, ghost ids: seq<Option<string>>, i: nat, replies: Replies, ghost start: seq<Request>)
      returns (ok: bool)
      requires i < |list| == |ids| && Distinct(list)
      requires log == start + Fetches(list[..i], ids[..i])
      requires forall j {:trigger list[j]} :: 0 <= j < |list| ==> IdOf(list[j]) == ids[j]
      requires forall j {:trigger list[j]} :: 0 <= j < i ==> Refreshed(list[j], replies, lights)
      modifies this`log, ObjectOf(list[i])
      ensures log == start + Fetches(list[..i + 1], ids[..i + 1])
      ensures forall j {:trigger list[j]} :: 0 <= j < |list| ==> IdOf(list[j]) == ids[j]
      ensures forall j {:trigger list[j]} :: 0 <= j <= i ==> Refreshed(list[j], replies, lights)
      ensures ok <==> Loads(list[i], replies, lights)
    {
      var e := list[i];
      FetchesStep(list, ids, i);
      ok := UpdateElement(e, replies);
      forall j | 0 <= j < |list| && j != i
        ensures IdOf(list[j]) == ids[j]
        ensures j < i ==> Refreshed(list[j], replies, lights)
      {
        if j < i { assert Differ(list, j, i); } else { assert Differ(list, i, j); }
        ObjectsApart(list[j], e);
      }
    }

    /** `updateFor`: the target's member lights, the target, and the saved
        groups holding any of those lights are refreshed in that order, each
        once (`refreshed`). `order` is the order of the target's member keys
        and `groupOrder` that of the saved groups' keys. The refresh stops
        after the first element whose setter throws: the target scene, or a
        group whose answer lists a light the cache lacks. */
    method UpdateFor(target: Element, order: seq<string>, groupOrder: seq<string>, replies: Replies)
      returns (completed: bool, ghost refreshed: seq<Element>, ghost count: nat)
      requires MembersEnumerated(target, order) && Enumerates(groupOrder, groups.Keys)
      modifies this`log, Objects(Targets(target, order, groupOrder, groups))
      ensures refreshed == old(Targets(target, order, groupOrder, groups))
      ensures count <= |refreshed| && log == old(log) + Refetches(refreshed[..count])
      ensures forall j {:trigger refreshed[j]} :: 0 <= j < count ==> Refreshed(refreshed[j], replies, lights)
      ensures completed ==> count == |refreshed|
      ensures !completed ==> 0 < count && !Loads(refreshed[count - 1], replies, lights)
    {
      assert MembersListed(target, order);
      TargetsWithin(target, order, groupOrder, groups);
      refreshed := Targets(target, order, groupOrder, groups);
      var list := Targets(target, order, groupOrder, groups);
      ghost var ids;
      completed, count, ids := RefreshAll(list, replies);
      FetchesCurrent(list, ids, count);
    }

    /** A PUT awaited before `updateFor(target)`: the PUT changes no
        element, so the refresh targets are those of the state before it. */
    method PutThenUpdate(put: Request, target: Element, order: seq<string>, groupOrder: seq<string>, replies: Replies)
      returns (completed: bool, ghost refreshed: seq<Element>, ghost count: nat)
      requires MembersEnumerated(target, order) && Enumerates(groupOrder, groups.Keys)
      modifies this`log, Objects(Targets(target, order, groupOrder, groups))
      ensures refreshed == old(Targets(target, order, groupOrder, groups))
      ensures count <= |refreshed| && log == old(log) + [put] + Refetches(refreshed[..count])
      ensures forall j {:trigger refreshed[j]} :: 0 <= j < count ==> Refreshed(refreshed[j], replies, lights)
      ensures completed ==> count == |refreshed|
      ensures !completed ==> 0 < count && !Loads(refreshed[count - 1], replies, lights)
    {
      assert MembersListed(target, order);
      TargetsWithin(target, order, groupOrder, groups);
      refreshed := Targets(target, order, groupOrder, groups);
      var list := Targets(target, order, groupOrder, groups);
      log := log + [put];
      ghost var ids;
      completed, count, ids := RefreshAll(list, replies);
      FetchesCurrent(list, ids, count);
    }

    /** Refreshes the elements of a duplicate-free list in order, stopping
        after the first whose setter throws. */
    method RefreshAll(list: seq<Element>, replies: Replies)
      returns (completed: bool, ghost count: nat, ghost ids: seq<Option<string>>)
      requires Distinct(list)
      modifies this`log, Objects(list)
      ensures |ids| == |list| && count <= |list|
      ensures forall j {:trigger list[j]} :: 0 <= j < |list| ==> IdOf(list[j]) == ids[j]
      ensures log == old(log) + Fetches(list[..count], ids[..count])
      ensures forall j {:trigger list[j]} :: 0 <= j < count ==> Refreshed(list[j], replies, lights)
      ensures completed ==> count == |list|
      ensures !completed ==> 0 < count && !Loads(list[count - 1], replies, lights)
    {
      ids := IdsOf(list);
      var i := 0;
      completed := true;
      while i < |list| && completed
        invariant 0 <= i <= |list|
        invariant log == old(log) + Fetches(list[..i], ids[..i])
        invariant forall j {:trigger list[j]} :: 0 <= j < |list| ==> IdOf(list[j]) == ids[j]
        invariant forall j {:trigger list[j]} :: 0 <= j < i ==> Refreshed(list[j], replies, lights)
        invariant !completed ==> 0 < i && !Loads(list[i - 1], replies, lights)
      {
        completed := RefreshNext(list, ids, i, replies, old(log));
        i := i + 1;
      }
      count := i;
    }

    /** `queryLightstateInformation`: a GET of all scenes (their keys in
        `sceneIds`), then a GET of each scene, whose answer `details`
        gives, adding its lightstate count and reporting the progress
        after each. `asked` scenes were fetched; the count fails where a
        scene has no lightstates. */
    method QueryLightstateInformation(sceneIds: seq<string>, details: string -> SceneData)
      returns (r: Option<LightstateInfo>, reports: seq<Report>, ghost asked: nat)
      modifies this`log
      ensures asked <= |sceneIds|
      ensures log == old(log) + [Request("scenes", GET, NoBody)] + SceneFetches(sceneIds[..asked])
      ensures r.Some? <==> StatesTotal(sceneIds, details).Some?
      ensures r.Some? ==> asked == |sceneIds| && r.value == LightstateInfo(MaxLightStates, StatesTotal(sceneIds, details).value)
      ensures r.None? ==> 0 < asked && details(sceneIds[asked - 1]).lightstates.None?
      ensures var counted := if r.Some? then asked else asked - 1;
        StatesTotal(sceneIds[..counted], details).Some?
        && reports == ProgressReports(sceneIds[..counted], |sceneIds|, details)
    {
      log := log + [Request("scenes", GET, NoBody)];
      var num := 0;
      reports := [];
      var i := 0;
      while i < |sceneIds|
        invariant 0 <= i <= |sceneIds| && |reports| == i
        invariant log == old(log) + [Request("scenes", GET, NoBody)] + SceneFetches(sceneIds[..i])
        invariant StatesTotal(sceneIds[..i], details) == Some(num)
        invariant reports == ProgressReports(sceneIds[..i], |sceneIds|, details)
      {
        var id := sceneIds[i];
        log := log + [Request("scenes/" + id, GET, NoBody)];
        QueryStep(sceneIds, i, details);
        assert log == old(log) + [Request("scenes", GET, NoBody)] + SceneFetches(sceneIds[..i + 1]);
        var ls := details(id).lightstates;
        if ls.None? {
          r, asked := None, i + 1;
          StatesTotalStops(sceneIds, i, details);
          return;
        }
        num := num + |ls.value|;
        reports := reports + [Report(num, MaxLightStates, i + 1, |sceneIds|)];
        i := i + 1;
      }
      assert sceneIds[..i] == sceneIds;
      r, asked := Some(LightstateInfo(MaxLightStates, num)), i;
    }

    /** `reload`: the lights, groups and scenes are requested in that
        order, and the three responses fill the cache one after the other
        (the scenes' fill waits only for the lights, so it runs even when
        the groups' fill throws). The `load` event fires only when both
        later fills complete. */
    method Reload(lightEntries: seq<(string, LightData)>, groupEntries: seq<(string, GroupData)>,
                  sceneEntries: seq<(string, SceneData)>) returns (groupsDone: bool, scenesDone: bool)
      requires Valid() && DistinctKeys(lightEntries) && DistinctKeys(groupEntries) && DistinctKeys(sceneEntries)
      modifies this`lights, this`groups, this`groupedLights, this`scenes, this`log, this`events
      modifies lights.Values, groups.Values
      ensures Valid()
      ensures log == old(log) + [Request("lights", GET, NoBody), Request("groups", GET, NoBody),
                                 Request("scenes", GET, NoBody)]
      ensures KeysOf(lightEntries, |lightEntries|) <= lights.Keys
      ensures groupsDone <==> ListsCached(groupEntries, |groupEntries|, lights)
      ensures scenesDone <==> ScenesLoad(sceneEntries, old(scenes.Keys), lights)
      ensures groupsDone ==> KeysOf(groupEntries, |groupEntries|) <= groups.Keys
      ensures scenesDone ==> KeysOf(sceneEntries, |sceneEntries|) <= scenes.Keys
      ensures events == old(events) + (if groupsDone && scenesDone then [Load] else [])
    {
      log := log + [Request("lights", GET, NoBody), Request("groups", GET, NoBody), Request("scenes", GET, NoBody)];
      FillLights(lightEntries);
      groupsDone, scenesDone := FillRest(groupEntries, sceneEntries);
    }

    /** The second half of `reload`: the groups' and then the scenes'
        fill, and the `load` event once both complete. */
    method FillRest(groupEntries: seq<(string, GroupData)>, sceneEntries: seq<(string, SceneData)>)
      returns (groupsDone: bool, scenesDone: bool)
      requires Valid() && DistinctKeys(groupEntries) && DistinctKeys(sceneEntries)
      modifies this`groups, this`groupedLights, this`scenes, this`events, lights.Values`room
      modifies groups.Values`groupId, groups.Values`data, groups.Values`name, groups.Values`isRoom, groups.Values`lights
      ensures Valid()
      ensures groupsDone <==> ListsCached(groupEntries, |groupEntries|, lights)
      ensures scenesDone <==> ScenesLoad(sceneEntries, old(scenes.Keys), lights)
      ensures groupsDone ==> KeysOf(groupEntries, |groupEntries|) <= groups.Keys
      ensures scenesDone ==> KeysOf(sceneEntries, |sceneEntries|) <= scenes.Keys
      ensures events == old(events) + (if groupsDone && scenesDone then [Load] else [])
    {
      groupsDone := FillGroups(groupEntries);
      if groupsDone {
        DescribedKeys(groupEntries, groups, lights);
      }
      ghost var n;
      var result;
      scenesDone, n, result := FillScenes(sceneEntries);
      if groupsDone && scenesDone {
        events := events + [Load];
      }
    }

    /** `_setLightState`: the accepted fields of `state`, or else of the
        light's own `data.state`, are PUT to the light; where neither
        exists the source throws before any request. The light's new data
        is fetched and stored as it comes, without an `_id`, and then
        `updateFor` refreshes the light and every saved group holding it,
        stopping after a group whose setter throws. `completed` is false
        where either throw happens. */
    method SetLightState(light: LightElement, state: Option<State>, replies: Replies, groupOrder: seq<string>)
      returns (completed: bool, ghost refreshed: seq<Element>, ghost count: nat)
      requires Enumerates(groupOrder, groups.Keys)
      modifies this`log, light, groups.Values
      ensures state.None? && old(light.data).None? ==>
        !completed && count == 0 && log == old(log) && unchanged(light)
      ensures state.Some? || old(light.data).Some? ==>
        var data := if state.Some? then state.value else old(light.data.value.state);
        refreshed == FirstOccurrences([LightItem(light)] + old(GroupHits([PropKey(light.id)], groupOrder, groups)))
        && count <= |refreshed|
        && log == old(log) + [Request(Path("lights", old(light.id)) + "/state", PUT, StateBody(Payload(data))),
                              Request(Path("lights", old(light.id)), GET, NoBody)] + Refetches(refreshed[..count])
      ensures completed ==> count == |refreshed|
      ensures !completed && (state.Some? || old(light.data).Some?) ==>
        0 < count && !Loads(refreshed[count - 1], replies, lights)
      ensures forall j {:trigger refreshed[j]} :: 0 <= j < count ==> Refreshed(refreshed[j], replies, lights)
    {
      if state.None? && light.data.None? {
        return false, [], 0;
      }
      var data := if state.Some? then state.value else light.data.value.state;
      completed, refreshed, count := PutLightState(light, data, replies, groupOrder);
    }

    /** The PUT of `_setLightState`, the GET of the light's new data, its
        `data` setter, and the `updateFor` after them. */
    method PutLightState(light: LightElement, data: State, replies: Replies, groupOrder: seq<string>)
      returns (completed: bool, ghost refreshed: seq<Element>, ghost count: nat)
      requires Enumerates(groupOrder, groups.Keys)
      modifies this`log, light, groups.Values
      ensures refreshed == FirstOccurrences([LightItem(light)] + old(GroupHits([PropKey(light.id)], groupOrder, groups)))
      ensures count <= |refreshed|
      ensures log == old(log) + [Request(Path("lights", old(light.id)) + "/state", PUT, StateBody(Payload(data))),
                                 Request(Path("lights", old(light.id)), GET, NoBody)] + Refetches(refreshed[..count])
      ensures forall j {:trigger refreshed[j]} :: 0 <= j < count ==> Refreshed(refreshed[j], replies, lights)
      ensures completed ==> count == |refreshed|
      ensures !completed ==> 0 < count && !Loads(refreshed[count - 1], replies, lights)
    {
      log := log + [Request(Path("lights", light.id) + "/state", PUT, StateBody(Payload(data))),
                    Request(Path("lights", light.id), GET, NoBody)];
      light.SetData(replies.light(PropKey(light.id)).(tag := None));
      completed, refreshed, count := RefreshLight(light, replies, groupOrder);
    }

    /** `updateFor` of a light: the light, then every saved group holding
        it, up to the first group whose setter throws. */
    method RefreshLight(light: LightElement, replies: Replies, groupOrder: seq<string>)
      returns (completed: bool, ghost refreshed: seq<Element>, ghost count: nat)
      requires Enumerates(groupOrder, groups.Keys)
      modifies this`log, light, groups.Values
      ensures refreshed == FirstOccurrences([LightItem(light)] + old(GroupHits([PropKey(light.id)], groupOrder, groups)))
      ensures count <= |refreshed| && log == old(log) + Refetches(refreshed[..count])
      ensures forall j {:trigger refreshed[j]} :: 0 <= j < count ==> Refreshed(refreshed[j], replies, lights)
      ensures completed ==> count == |refreshed|
      ensures !completed ==> 0 < count && !Loads(refreshed[count - 1], replies, lights)
    {
      TargetsWithin(LightItem(light), [], groupOrder, groups);
      completed, refreshed, count := UpdateFor(LightItem(light), [], groupOrder, replies);
    }

    /** `_setGroupState`: the accepted fields of `state`, or else of the
        group's `data.action`, are PUT as the group's action; where neither
        exists the source throws first. Then `updateFor` refreshes the
        group's members (keys in `order`), the group and the saved groups
        sharing a member, stopping after a group whose setter throws. */
    method SetGroupState(group: LightGroupElement, state: Option<State>, replies: Replies, order: seq<string>,
                         groupOrder: seq<string>) returns (completed: bool, ghost refreshed: seq<Element>, ghost count: nat)
      requires Enumerates(order, group.lights.Keys) && Enumerates(groupOrder, groups.Keys)
      modifies this`log, Objects(Targets(GroupItem(group), order, groupOrder, groups))
      ensures state.None? && old(group.data).None? ==> !completed && count == 0 && log == old(log)
      ensures state.Some? || old(group.data).Some? ==>
        var data := if state.Some? then state.value else old(group.data.value.action);
        refreshed == old(Targets(GroupItem(group), order, groupOrder, groups))
        && count <= |refreshed|
        && log == old(log) + [Request(Path("groups", old(group.groupId)) + "/action", PUT, StateBody(Payload(data)))]
                  + Refetches(refreshed[..count])
      ensures completed ==> count == |refreshed|
      ensures !completed && (state.Some? || old(group.data).Some?) ==>
        0 < count && !Loads(refreshed[count - 1], replies, lights)
      ensures forall j {:trigger refreshed[j]} :: 0 <= j < count ==> Refreshed(refreshed[j], replies, lights)
    {
      if state.None? && group.data.None? {
        return false, [], 0;
      }
      var data := if state.Some? then state.value else group.data.value.action;
      completed, refreshed, count := PutGroupAction(group, data, replies, order, groupOrder);
    }

    /** The PUT of `_setGroupState` and the `updateFor` after it. */
    method PutGroupAction(group: LightGroupElement, data: State, replies: Replies, order: seq<string>,
                          groupOrder: seq<string>) returns (completed: bool, ghost refreshed: seq<Element>, ghost count: nat)
      requires Enumerates(order, group.lights.Keys) && Enumerates(groupOrder, groups.Keys)
      modifies this`log, Objects(Targets(GroupItem(group), order, groupOrder, groups))
      ensures refreshed == old(Targets(GroupItem(group), order, groupOrder, groups))
      ensures count <= |refreshed|
      ensures log == old(log) + [Request(Path("groups", old(group.groupId)) + "/action", PUT, StateBody(Payload(data)))]
                     + Refetches(refreshed[..count])
      ensures forall j {:trigger refreshed[j]} :: 0 <= j < count ==> Refreshed(refreshed[j], replies, lights)
      ensures completed ==> count == |refreshed|
      ensures !completed ==> 0 < count && !Loads(refreshed[count - 1], replies, lights)
    {
      var put := Request(Path("groups", group.groupId) + "/action", PUT, StateBody(Payload(data)));
      completed, refreshed, count := PutThenUpdate(put, GroupItem(group), order, groupOrder, replies);
    }

    /** `_setSceneState`: the scene is recalled through group 0, then
        `updateFor` refreshes its members, itself and the saved groups
        sharing a member; it stops after the first of them whose setter
        throws. */
    method SetSceneState(scene: LightSceneElement, replies: Replies, order: seq<string>, groupOrder: seq<string>)
      returns (completed: bool, ghost refreshed: seq<Element>, ghost count: nat)
      requires Enumerates(order, scene.lights.Keys) && Enumerates(groupOrder, groups.Keys)
      modifies this`log, Objects(Targets(SceneItem(scene), order, groupOrder, groups))
      ensures refreshed == old(Targets(SceneItem(scene), order, groupOrder, groups))
      ensures count <= |refreshed|
      ensures log == old(log) + [Request("groups/0/action", PUT, RecallBody(old(scene.sceneId)))]
                     + Refetches(refreshed[..count])
      ensures forall j {:trigger refreshed[j]} :: 0 <= j < count ==> Refreshed(refreshed[j], replies, lights)
      ensures completed ==> count == |refreshed|
      ensures !completed ==> 0 < count && !Loads(refreshed[count - 1], replies, lights)
    {
      var recall := Request("groups/0/action", PUT, RecallBody(scene.sceneId));
      completed, refreshed, count := PutThenUpdate(recall, SceneItem(scene), order, groupOrder, replies);
    }

    /** `_setAllLightsState`: the whole object is PUT as the action of
        group 0, and nothing is refreshed. */
    method SetAllLightsState(payload: State)
      modifies this`log
      ensures log == old(log) + [Request("groups/0/action", PUT, StateBody(Whole(payload)))]
    {
      log := log + [Request("groups/0/action", PUT, StateBody(Whole(payload)))];
    }
  }

  /** Where every entry is described, every key is cached. */
  lemma DescribedKeys(entries: seq<(string, GroupData)>, groups: map<string, LightGroupElement>,
                      known: map<string, LightElement>)
    requires forall i {:trigger DescribedAt(entries, i, groups, known)} :: 0 <= i < |entries| ==>
      DescribedAt(entries, i, groups, known)
    ensures KeysOf(entries, |entries|) <= groups.Keys
  {
    forall id | id in KeysOf(entries, |entries|)
      ensures id in groups
    {
      KeysOfMeaning(entries, |entries|, id);
      var j :| 0 <= j < |entries| && entries[j].0 == id;
      assert DescribedAt(entries, j, groups, known);
    }
  }

  /** Entry `j` is described by the group cached under its key. */
  predicate DescribedAt(entries: seq<(string, GroupData)>, j: nat, groups: map<string, LightGroupElement>,
                        known: map<string, LightElement>)
    requires j < |entries|
    reads groups.Values
  {
    entries[j].0 in groups && Describes(groups[entries[j].0], entries[j].0, entries[j].1, known)
  }

  /** A group shows an entry of the bridge's response under the cached
      lights: its data is the entry tagged with the id, and its name, room
      flag and members follow the data. */
  predicate Describes(group: LightGroupElement, id: string, d: GroupData, known: map<string, LightElement>)
    reads group
  {
    group.data == Some(d.(tag := Some(id))) && group.name == d.name
    && group.isRoom == (d.groupType == "Room") && group.lights == Members(d.lights, known)
  }

  /** No two entries have the same key, as in `Object.entries`. */
  predicate DistinctKeys<V>(entries: seq<(string, V)>)
  {
    forall i, j {:trigger KeysApart(entries, i, j)} :: 0 <= i < j < |entries| ==> KeysApart(entries, i, j)
  }

  /** Entries `i` and `j` have different keys. */
  predicate KeysApart<V>(entries: seq<(string, V)>, i: nat, j: nat)
    requires i < |entries| && j < |entries|
  {
    entries[i].0 != entries[j].0
  }

  /** The cache keeps every group it started with, and every key added
      is one of the first `n` entries' keys. */
  predicate Kept(entries: seq<(string, GroupData)>, n: nat, groups: map<string, LightGroupElement>,
                 groups0: map<string, LightGroupElement>)
    requires n <= |entries|
  {
    && (forall id :: id in groups0 ==> id in groups && groups[id] == groups0[id])
    && (forall id :: id in groups && id !in groups0 ==> id in KeysOf(entries, n))
  }

  /** With distinct keys, the cache holds the next entry's key only if it
      held it from the start. */
  lemma NextIsOld(entries: seq<(string, GroupData)>, i: nat, groups: map<string, LightGroupElement>,
                  groups0: map<string, LightGroupElement>)
    requires DistinctKeys(entries) && i < |entries| && Kept(entries, i, groups, groups0)
    ensures entries[i].0 in groups ==> entries[i].0 in groups0 && groups[entries[i].0] == groups0[entries[i].0]
  {
    forall j | 0 <= j < i
      ensures entries[j].0 != entries[i].0
    {
      assert KeysApart(entries, j, i);
    }
    KeysOfMeaning(entries, i, entries[i].0);
  }

  /** The keys of the first `n` entries. */
  function KeysOf<V>(entries: seq<(string, V)>, n: nat): set<string>
    requires n <= |entries|
  {
    if n == 0 then {} else KeysOf(entries, n - 1) + {entries[n - 1].0}
  }

  /** A key is among the first `n` keys exactly when one of the first `n`
      entries has it. */
  lemma {:induction false} KeysOfMeaning<V>(entries: seq<(string, V)>, n: nat, id: string)
    requires n <= |entries|
    ensures id in KeysOf(entries, n) <==> exists j :: 0 <= j < n && entries[j].0 == id
  {
    if n > 0 {
      KeysOfMeaning(entries, n - 1, id);
    }
  }

  /** The first `n` keys are among the first `m`. */
  lemma {:induction false} KeysOfGrow<V>(entries: seq<(string, V)>, n: nat, m: nat)
    requires n <= m <= |entries|
    ensures KeysOf(entries, n) <= KeysOf(entries, m)
  {
    if n < m {
      KeysOfGrow(entries, n, m - 1);
    }
  }

  /** Entry `j` is shown by the light cached under its key. */
  predicate ShownAt(entries: seq<(string, LightData)>, j: nat, lights: map<string, LightElement>)
    requires j < |entries|
    reads lights.Values
  {
    entries[j].0 in lights && Shows(lights[entries[j].0], entries[j].0, entries[j].1)
  }

  /** A light shows an entry of the bridge's response: its data is the
      entry tagged with the id, its name and "on" class follow the data. */
  predicate Shows(light: LightElement, id: string, d: LightData)
    reads light
  {
    light.data == Some(Tagged(id, d)) && light.name == d.name && light.on == Truthy(Get(d.state, "on"))
  }

  /** Entry `j`'s key is cached; unless it was cached before (`before`),
      the scene there shows the entry, whose setter returned. */
  predicate SceneShownAt(entries: seq<(string, SceneData)>, j: nat, scenes: map<string, LightSceneElement>,
                         before: set<string>, known: map<string, LightElement>)
    requires j < |entries|
    reads scenes.Values, known.Values
  {
    entries[j].0 in scenes
    && (entries[j].0 !in before ==>
          SceneShows(scenes[entries[j].0], entries[j].0, entries[j].1, known) && SceneLoads(entries[j].1, known))
  }

  /** Every entry whose key was not cached before (`before`) makes a
      scene whose setter returns. */
  predicate ScenesLoad(entries: seq<(string, SceneData)>, before: set<string>, known: map<string, LightElement>)
    reads known.Values
  {
    forall j :: 0 <= j < |entries| && entries[j].0 !in before ==> SceneLoads(entries[j].1, known)
  }

  /** The `data` setter of a new scene element returns for this data: every
      listed light is cached, and every targeted light is a member with a
      state. */
  predicate SceneLoads(d: SceneData, known: map<string, LightElement>)
    reads known.Values
  {
    AllCached(d.lights, known) && SceneFlags(d.lightstates, LiveStates(Members(d.lights, known))).Some?
  }

  /** A scene `_fillScenes` created for an entry: its data is the entry
      tagged with the id, its name and members follow the data, and it is
      saved. */
  predicate SceneShows(scene: LightSceneElement, id: string, d: SceneData, known: map<string, LightElement>)
    reads scene
  {
    scene.data == Some(d.(tag := Some(id))) && scene.name == d.name
    && scene.lights == Members(d.lights, known) && scene.mode == Saved
  }

  /** `BridgeConnector.instances`: the connector of each host and user. */
  class Registry {
    var instances: map<string, BridgeConnector>

    constructor ()
      ensures instances == map[]
    {
      instances := map[];
    }

    /** The constructor: the first call for a host and user creates an
        empty connector and registers it under `host|user`; every later
        call returns that connector and changes nothing, whatever protocol
        it passes. The key is the plain concatenation, so the host "a|b"
        with the user "c" shares the connector of the host "a" with the
        user "b|c". */
    method Connect(host: string, user: string, protocol: string) returns (c: BridgeConnector)
      modifies this
      ensures InstanceKey(host, user) in old(instances) ==>
        c == old(instances)[InstanceKey(host, user)] && instances == old(instances)
      ensures InstanceKey(host, user) !in old(instances) ==>
        fresh(c) && c.host == host && c.user == user && c.protocol == protocol
        && c.lights == map[] && c.groups == map[] && c.scenes == map[] && c.Valid()
        && instances == old(instances)[InstanceKey(host, user) := c]
    {
      var key := InstanceKey(host, user);
      if key !in instances {
        var created := new BridgeConnector(host, user, protocol);
        instances := instances[key := created];
      }
      c := instances[key];
    }
  }

  /** Constructing twice with the same host and user yields one connector,
      which keeps the first protocol. */
  method ConnectTwice(registry: Registry, host: string, user: string, first: string, second: string)
    returns (c1: BridgeConnector, c2: BridgeConnector)
    requires InstanceKey(host, user) !in registry.instances
    modifies registry
    ensures c1 == c2 && c2.protocol == first && c2.host == host && c2.user == user
    ensures registry.instances == old(registry.instances)[InstanceKey(host, user) := c1]
  {
    c1 := registry.Connect(host, user, first);
    c2 := registry.Connect(host, user, second);
  }
}
