/**
 * The scene element (js/modules/elements/lightsceneelement.js): the editable
 * view of a scene, with the same staged membership as a group, and the
 * derivation of whether the scene is active (`on`: every light is on and
 * shows the scene's target state) or merely lit (`any_on`: every light is on
 * but some differ from the target).
 */
module SceneEl {
  import opened Js
  import opened LightEl

  /** A scene's target state per light, in the order the bridge lists them. */
  type Lightstates = seq<(string, State)>

  /** A scene as the bridge describes it; `tag` is the attached `_id`. */
  datatype SceneData = SceneData(
    tag: Option<string>,
    name: string,
    owner: Option<string>,
    lights: seq<string>,
    lightstates: Option<Lightstates>)

  /** The live state reproduces every field the target specifies, with a
      strictly equal value; fields only the live state has do not matter. */
  predicate Reproduces(target: State, live: State)
  {
    forall k :: k in target ==> StrictEq(target[k], Get(live, k))
  }

  /** The loop of `hasState` over the keys of `state1`, visited in the order
      `keys`, returning false at the first mismatch. */
  predicate KeysMatch(state1: State, state2: State, keys: seq<string>)
  {
    keys == [] || (StrictEq(Get(state1, keys[0]), Get(state2, keys[0])) && KeysMatch(state1, state2, keys[1..]))
  }

  /** `hasState(state1, state2)`: false when `state2` is absent, otherwise
      the key loop. */
  predicate HasState(state1: State, state2: Option<State>, keys: seq<string>)
  {
    state2.Some? && KeysMatch(state1, state2.value, keys)
  }

  lemma {:induction false} KeysMatchAll(state1: State, state2: State, keys: seq<string>)
    ensures KeysMatch(state1, state2, keys) <==>
      forall i :: 0 <= i < |keys| ==> StrictEq(Get(state1, keys[i]), Get(state2, keys[i]))
  {
    if keys != [] {
      KeysMatchAll(state1, state2, keys[1..]);
      assert forall i :: 1 <= i < |keys| ==> keys[i] == keys[1..][i - 1];
    }
  }

  /** Whatever order the loop visits the keys in, `hasState` answers whether
      the second state is present and reproduces the first. */
  lemma HasStateMeaning(state1: State, state2: Option<State>, keys: seq<string>)
    requires Enumerates(keys, state1.Keys)
    ensures HasState(state1, state2, keys) <==> state2.Some? && Reproduces(state1, state2.value)
  {
    if state2.Some? {
      KeysMatchAll(state1, state2.value, keys);
      if KeysMatch(state1, state2.value, keys) {
        forall k | k in state1
          ensures StrictEq(state1[k], Get(state2.value, k))
        {
          assert k in set x | x in keys;
          var i :| 0 <= i < |keys| && keys[i] == k;
        }
      }
    }
  }

  /** The empty target is reproduced by every present state. */
  lemma HasStateOfEmpty(state2: State)
    ensures HasState(map[], Some(state2), [])
    ensures Reproduces(map[], state2)
  {
  }

  /** Adding fields the target does not mention keeps it reproduced. */
  lemma ReproducesIgnoresExtraKeys(target: State, live: State, extra: State)
    requires Reproduces(target, live)
    requires extra.Keys !! target.Keys
    ensures Reproduces(target, live + extra)
  {
    forall k | k in target
      ensures StrictEq(target[k], Get(live + extra, k))
    {
      assert k !in extra;
    }
  }

  /** The two flags the scene shows. */
  datatype Flags = Flags(on: bool, anyOn: bool)

  predicate LightIsOn(st: State)
  {
    Truthy(Get(st, "on"))
  }

  /** The loop of the `data` setter over the target lightstates, in order:
      a light that is off ends it with both flags false; otherwise the
      all-on flag drops at the first light that does not reproduce its
      target. Its answer is the pair (any_on, all_on) the loop ends with,
      or `None` when it reaches a light that is not a member with a state
      (the source throws a TypeError there). */
  function Scan(entries: Lightstates, live: map<string, State>, allOn: bool): Option<(bool, bool)>
  {
    if entries == [] then Some((true, allOn))
    else if entries[0].0 !in live then None
    else if !LightIsOn(live[entries[0].0]) then Some((false, false))
    else Scan(entries[1..], live, allOn && Reproduces(entries[0].1, live[entries[0].0]))
  }

  /** The flags as the loop evidently intends them: with no target
      lightstates both are false; otherwise `on` is the loop's all-on flag
      and `any_on` is its any-on flag without all-on. */
  function SceneFlags(lightstates: Option<Lightstates>, live: map<string, State>): (r: Option<Flags>)
    ensures r.Some? ==> !(r.value.on && r.value.anyOn)
  {
    if lightstates.None? then Some(Flags(false, false))
    else
      match Scan(lightstates.value, live, true)
      case None => None
      case Some(p) => Some(Flags(p.1, p.0 && !p.1))
  }

  /** The flags the running code computes: the target lightstates are kept
      as a Promise, and `for…in` over a Promise visits no key, so the loop
      runs over nothing. */
  function SceneFlagsAsWritten(lightstates: Option<Lightstates>, live: map<string, State>): (r: Option<Flags>)
  {
    match Scan([], live, true)
    case None => None
    case Some(p) => Some(Flags(p.1, p.0 && !p.1))
  }

  /** As written, every scene reports itself active and none merely lit,
      whatever its lights show. */
  lemma AsWrittenAlwaysOn(lightstates: Option<Lightstates>, live: map<string, State>)
    ensures SceneFlagsAsWritten(lightstates, live) == Some(Flags(true, false))
  {
  }

  /** A scene whose one light is off: the running code reports it active,
      the intended derivation reports neither flag. */
  lemma AsWrittenMisreportsLightOff()
    ensures var ls := Some([("1", map["on" := Bool(true), "bri" := Num(100)])]);
      var live := map["1" := map["on" := Bool(false)]];
      SceneFlagsAsWritten(ls, live) == Some(Flags(true, false))
      && SceneFlags(ls, live) == Some(Flags(false, false))
  {
    var live: map<string, State> := map["1" := map["on" := Bool(false)]];
    assert !LightIsOn(live["1"]);
  }

  predicate AllKnown(entries: Lightstates, live: map<string, State>)
  {
    forall i :: 0 <= i < |entries| ==> entries[i].0 in live
  }

  predicate SomeOff(entries: Lightstates, live: map<string, State>)
    requires AllKnown(entries, live)
  {
    exists i :: 0 <= i < |entries| && !LightIsOn(live[entries[i].0])
  }

  predicate AllReproduced(entries: Lightstates, live: map<string, State>)
    requires AllKnown(entries, live)
  {
    forall i :: 0 <= i < |entries| ==> Reproduces(entries[i].1, live[entries[i].0])
  }

  lemma {:induction false} ScanMeaning(entries: Lightstates, live: map<string, State>, allOn: bool)
    requires AllKnown(entries, live)
    ensures SomeOff(entries, live) ==> Scan(entries, live, allOn) == Some((false, false))
    ensures !SomeOff(entries, live) ==>
      Scan(entries, live, allOn) == Some((true, allOn && AllReproduced(entries, live)))
  {
    if entries != [] {
      var rest := entries[1..];
      assert AllKnown(rest, live) by {
        forall i | 0 <= i < |rest| ensures rest[i].0 in live {
          assert rest[i] == entries[i + 1];
        }
      }
      var first := live[entries[0].0];
      ScanMeaning(rest, live, allOn && Reproduces(entries[0].1, first));
      assert SomeOff(entries, live) <==> !LightIsOn(first) || SomeOff(rest, live) by {
        if SomeOff(rest, live) {
          var i :| 0 <= i < |rest| && !LightIsOn(live[rest[i].0]);
          assert rest[i] == entries[i + 1];
        }
        if SomeOff(entries, live) && LightIsOn(first) {
          var i :| 0 <= i < |entries| && !LightIsOn(live[entries[i].0]);
          assert i > 0 && entries[i] == rest[i - 1];
        }
      }
      assert AllReproduced(entries, live) <==>
        Reproduces(entries[0].1, first) && AllReproduced(rest, live) by {
        if Reproduces(entries[0].1, first) && AllReproduced(rest, live) {
          forall i | 0 <= i < |entries| ensures Reproduces(entries[i].1, live[entries[i].0]) {
            if i > 0 { assert entries[i] == rest[i - 1]; }
          }
        }
        if AllReproduced(entries, live) {
          forall i | 0 <= i < |rest| ensures Reproduces(rest[i].1, live[rest[i].0]) {
            assert rest[i] == entries[i + 1];
          }
        }
      }
    }
  }

  /** The derivation table, when every targeted light is a member with a
      state: any light off gives neither flag; all on and all reproducing
      their targets gives `on`; all on with some mismatch gives `any_on`. */
  lemma SceneFlagsTable(entries: Lightstates, live: map<string, State>)
    requires AllKnown(entries, live)
    ensures SomeOff(entries, live) ==> SceneFlags(Some(entries), live) == Some(Flags(false, false))
    ensures !SomeOff(entries, live) && AllReproduced(entries, live) ==>
      SceneFlags(Some(entries), live) == Some(Flags(true, false))
    ensures !SomeOff(entries, live) && !AllReproduced(entries, live) ==>
      SceneFlags(Some(entries), live) == Some(Flags(false, true))
  {
    ScanMeaning(entries, live, true);
  }

  /** The live states of the member lights that have data: what
      `this.lights[id].state` reads. */
  function LiveStates(m: map<string, Option<LightElement>>): (r: map<string, State>)
    reads set k | k in m && m[k].Some? :: m[k].value
    ensures forall k :: k in r <==> k in m && m[k].Some? && m[k].value.data.Some?
  {
    map k | k in m && m[k].Some? && m[k].value.data.Some? :: m[k].value.data.value.state
  }

  class LightSceneElement {
    var sceneId: Option<string>
    /** `_data`; `None` is the empty object. */
    var data: Option<SceneData>
    var name: string
    var lights: map<string, Option<LightElement>>
    var addedLights: map<string, LightElement>
    var mode: Mode
    var on: bool
    var anyOn: bool
    /** The target lightstates the scene holds. */
    var lightstates: Option<Lightstates>

    constructor ()
      ensures sceneId == None && data == None && mode == New
      ensures lights == map[] && addedLights == map[] && lightstates == None
      ensures name == "" && !on && !anyOn
    {
      sceneId := None;
      data := None;
      name := "";
      lights := map[];
      addedLights := map[];
      mode := New;
      on := false;
      anyOn := false;
      lightstates := None;
    }

    /** The `owner` getter: `_data?.owner`. */
    function Owner(): Option<string>
      reads this
    {
      if data.Some? then data.value.owner else None
    }

    predicate NameEditable()
      reads this
    {
      mode == Changed || mode == Unsaved
    }

    /** The flags loop of the `data` setter returns: every targeted light
        is a member with a state. */
    predicate Flagged()
      reads this, set k | k in lights && lights[k].Some? :: lights[k].value
    {
      SceneFlags(lightstates, LiveStates(lights)).Some?
    }

    /** The `data` setter. `null` drops id, data and members; otherwise the
        id is replaced only by a truthy `_id`, the members are rebuilt from
        the listed light ids, new target lightstates replace the held ones,
        and the flags are derived from the member lights' live states; then
        the member list is rendered. `completed` is false where the source
        throws: in the flags loop at a targeted light that is not a member
        with a state (the flags are then left as they were), or in the
        rendering at a listed light that is not cached (the flags are then
        already set). */
    method SetData(value: Option<SceneData>, known: map<string, LightElement>) returns (completed: bool)
      modifies this`sceneId, this`data, this`name, this`lights, this`lightstates, this`on, this`anyOn
      ensures value.None? ==> sceneId == None && data == None && lights == map[]
      ensures value.None? ==> name == old(name) && lightstates == old(lightstates) && completed
      ensures value.None? ==> on == old(on) && anyOn == old(anyOn)
      ensures value.Some? ==> sceneId == (if TruthyId(value.value.tag) then value.value.tag else old(sceneId))
      ensures value.Some? ==> data == value && name == value.value.name
      ensures value.Some? ==> lights == Members(value.value.lights, known)
      ensures value.Some? ==> lightstates == (if value.value.lightstates.Some? then value.value.lightstates else old(lightstates))
      ensures value.Some? ==> var flags := SceneFlags(lightstates, LiveStates(lights));
        (flags.Some? ==> on == flags.value.on && anyOn == flags.value.anyOn)
        && (flags.None? ==> on == old(on) && anyOn == old(anyOn))
      ensures completed ==> Renders(lights)
      ensures completed <==> value.None? || (Flagged() && AllCached(value.value.lights, known))
      ensures addedLights == old(addedLights) && mode == old(mode)
    {
      lights := map[];
      if value.None? {
        sceneId := None;
        data := None;
        completed := true;
        return;
      }
      var v := value.value;
      Describe(v, known);
      var flagged := RefreshFlags();
      MembersRender(v.lights, known);
      completed := flagged && Renders(lights);
    }

    /** The head of the `data` setter for an object: id, data, name,
        members and target lightstates. */
    method Describe(v: SceneData, known: map<string, LightElement>)
      modifies this`sceneId, this`data, this`name, this`lights, this`lightstates
      ensures sceneId == (if TruthyId(v.tag) then v.tag else old(sceneId))
      ensures data == Some(v) && name == v.name && lights == Members(v.lights, known)
      ensures lightstates == (if v.lightstates.Some? then v.lightstates else old(lightstates))
    {
      if TruthyId(v.tag) {
        sceneId := v.tag;
      }
      data := Some(v);
      name := v.name;
      lights := Members(v.lights, known);
      if v.lightstates.Some? {
        lightstates := v.lightstates;
      }
    }

    /** The tail of the `data` setter: the flags derived from the held
        target lightstates and the members' live states. */
    method RefreshFlags() returns (completed: bool)
      modifies this`on, this`anyOn
      ensures completed == Flagged()
      ensures var flags := SceneFlags(lightstates, LiveStates(lights));
        (flags.Some? ==> on == flags.value.on && anyOn == flags.value.anyOn)
        && (flags.None? ==> on == old(on) && anyOn == old(anyOn))
    {
      var flags := SceneFlags(lightstates, LiveStates(lights));
      completed := flags.Some?;
      if flags.Some? {
        anyOn := flags.value.anyOn;
        on := flags.value.on;
      }
    }

    /** `addLight`: nothing happens when the light is already a member or
        staged; otherwise it is staged, the mode becomes `changed` or
        `unsaved` by whether the scene has an id, and the member list is
        rendered again, which throws where a member is undefined. */
    method AddLight(light: LightElement) returns (completed: bool)
      modifies this
      ensures var key := PropKey(light.id);
        if Holds(old(lights), key) || key in old(addedLights) then
          addedLights == old(addedLights) && mode == old(mode) && completed
        else
          addedLights == old(addedLights)[key := light] && mode == EditedMode(sceneId)
          && (completed <==> Renders(lights))
      ensures lights == old(lights) && sceneId == old(sceneId) && data == old(data) && name == old(name)
      ensures lightstates == old(lightstates) && on == old(on) && anyOn == old(anyOn)
    {
      var key := PropKey(light.id);
      if Holds(lights, key) || key in addedLights {
        return true;
      }
      addedLights := addedLights[key := light];
      mode := EditedMode(sceneId);
      completed := Renders(lights);
    }

    /** `removeLight`: nothing happens when the id is neither a member nor
        staged; otherwise it leaves both maps, the mode becomes `changed`
        or `unsaved` by whether the scene has an id, and the member list is
        rendered again. */
    method RemoveLight(lightId: string) returns (completed: bool)
      modifies this
      ensures if !Holds(old(lights), lightId) && lightId !in old(addedLights) then
          lights == old(lights) && addedLights == old(addedLights) && mode == old(mode) && completed
        else
          lights == old(lights) - {lightId} && addedLights == old(addedLights) - {lightId}
          && mode == EditedMode(sceneId) && (completed <==> Renders(lights))
      ensures sceneId == old(sceneId) && data == old(data) && name == old(name)
      ensures lightstates == old(lightstates) && on == old(on) && anyOn == old(anyOn)
    {
      if !Holds(lights, lightId) && lightId !in addedLights {
        return true;
      }
      addedLights := addedLights - {lightId};
      lights := lights - {lightId};
      mode := EditedMode(sceneId);
      completed := Renders(lights);
    }

    /** The first half of the save button: a scene without lights is refused
        (the alert), otherwise the staged lights are merged into the members
        and cleared, and the caller saves the scene. */
    method CommitAddedLights() returns (ok: bool)
      modifies this
      ensures ok <==> |old(lights).Keys| + |old(addedLights).Keys| != 0
      ensures ok ==> lights == Merged(old(lights), old(addedLights)) && addedLights == map[]
      ensures !ok ==> lights == old(lights) && addedLights == old(addedLights)
      ensures sceneId == old(sceneId) && data == old(data) && name == old(name) && mode == old(mode)
      ensures lightstates == old(lightstates) && on == old(on) && anyOn == old(anyOn)
    {
      if |lights.Keys| + |addedLights.Keys| == 0 {
        ok := false;
        return;
      }
      lights := Merged(lights, addedLights);
      addedLights := map[];
      ok := true;
    }

    /** The edit button. */
    method EditClicked()
      modifies this
      ensures mode == Changed && NameEditable()
      ensures sceneId == old(sceneId) && data == old(data) && name == old(name)
      ensures lights == old(lights) && addedLights == old(addedLights)
    {
      mode := Changed;
    }

    /** The cancel button: the name comes back from the data, the staged
        lights are dropped, the member list is rendered again and the mode
        becomes `saved`. Members removed earlier stay removed. Where a
        member is undefined the rendering throws and the mode stays. */
    method CancelClicked() returns (completed: bool)
      modifies this
      ensures name == (if data.Some? then data.value.name else "")
      ensures addedLights == map[] && (completed <==> Renders(lights))
      ensures completed ==> mode == Saved && !NameEditable()
      ensures !completed ==> mode == old(mode)
      ensures lights == old(lights) && sceneId == old(sceneId) && data == old(data)
      ensures lightstates == old(lightstates) && on == old(on) && anyOn == old(anyOn)
    {
      name := if data.Some? then data.value.name else "";
      addedLights := map[];
      completed := Renders(lights);
      if completed {
        mode := Saved;
      }
    }
  }

  /** A new scene element starts in mode `new` without an id, and its name
      is not editable. */
  method NewSceneNotEditable() returns (scene: LightSceneElement)
    ensures fresh(scene) && scene.mode == New && scene.sceneId == None && !scene.NameEditable()
  {
    scene := new LightSceneElement();
  }
}
