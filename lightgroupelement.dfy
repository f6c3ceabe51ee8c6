/**
 * The group element (js/modules/elements/lightgroupelement.js): the editable
 * view of a group or room. Membership is staged: lights dropped on the
 * element go into `addedLights` and join `lights` only when the group is
 * saved. `on` and `any_on` are read from, and written into, the group's data
 * object (`state.all_on`, `state.any_on`, `action.on`).
 */
module GroupEl {
  import opened Js
  import opened LightEl

  /** The bridge's aggregate flags of a group. */
  datatype GroupState = GroupState(allOn: bool, anyOn: bool)

  /** A group as the bridge describes it; `tag` is the attached `_id`.
      `action` is the state last commanded to the whole group. */
  datatype GroupData = GroupData(
    tag: Option<string>,
    name: string,
    groupType: string,
    lights: seq<string>,
    state: Option<GroupState>,
    action: State)

  /** The group's data after the `on` setter wrote `x` into it. */
  function WithOn(d: GroupData, x: bool): (r: GroupData)
    requires d.state.Some?
    ensures r.state == Some(d.state.value.(allOn := x))
    ensures r.action == d.action["on" := Bool(x)]
    ensures r.tag == d.tag && r.name == d.name && r.groupType == d.groupType && r.lights == d.lights
  {
    d.(state := Some(d.state.value.(allOn := x)), action := d.action["on" := Bool(x)])
  }

  class LightGroupElement {
    var groupId: Option<string>
    /** `_data`; `None` is the empty object. */
    var data: Option<GroupData>
    var name: string
    /** The "room" CSS class. */
    var isRoom: bool
    var lights: map<string, Option<LightElement>>
    var addedLights: map<string, LightElement>
    var mode: Mode

    constructor ()
      ensures groupId == None && data == None && mode == New
      ensures lights == map[] && addedLights == map[]
      ensures name == "" && !isRoom
    {
      groupId := None;
      data := None;
      name := "";
      isRoom := false;
      lights := map[];
      addedLights := map[];
      mode := New;
    }

    /** The `on` getter: `!!_data?.state?.all_on`. */
    predicate On()
      reads this
    {
      data.Some? && data.value.state.Some? && data.value.state.value.allOn
    }

    /** The `any_on` getter: `!!_data?.state?.any_on`. */
    predicate AnyOn()
      reads this
    {
      data.Some? && data.value.state.Some? && data.value.state.value.anyOn
    }

    /** The name is editable in modes `changed` and `unsaved`. */
    predicate NameEditable()
      reads this
    {
      mode == Changed || mode == Unsaved
    }

    /** The `data` setter. `null` drops id, data and members; otherwise the id
        is replaced only by a truthy `_id`, the members are rebuilt from the
        listed light ids, and the room flag follows the group type. The
        `any_on` and `on` setters it calls write back the values just read,
        so the data object keeps the bridge's flags. The member list is then
        rendered, which throws (`completed` false) when a listed light is not
        cached; every field is already set by then. */
    method SetData(value: Option<GroupData>, known: map<string, LightElement>) returns (completed: bool)
      modifies this`groupId, this`data, this`name, this`isRoom, this`lights
      ensures completed <==> Renders(lights)
      ensures completed <==> value.None? || AllCached(value.value.lights, known)
      ensures value.None? ==> groupId == None && data == None && lights == map[]
      ensures value.None? ==> name == old(name) && isRoom == old(isRoom)
      ensures value.Some? ==> groupId == (if TruthyId(value.value.tag) then value.value.tag else old(groupId))
      ensures value.Some? ==> data == value && name == value.value.name
      ensures value.Some? ==> isRoom == (value.value.groupType == "Room")
      ensures value.Some? ==> lights == Members(value.value.lights, known)
      ensures value.Some? && value.value.state.Some? ==>
        On() == value.value.state.value.allOn && AnyOn() == value.value.state.value.anyOn
      ensures value.Some? && value.value.state.None? ==> !On() && !AnyOn()
      ensures addedLights == old(addedLights) && mode == old(mode)
    {
      lights := map[];
      if value.None? {
        groupId := None;
        data := None;
        return true;
      }
      var v := value.value;
      if TruthyId(v.tag) {
        groupId := v.tag;
      }
      data := value;
      name := v.name;
      isRoom := v.groupType == "Room";
      lights := Members(v.lights, known);
      MembersRender(v.lights, known);
      completed := Renders(lights);
    }

    /** The `on` setter: when the data has a state and `x` differs from the
        current flag, both `state.all_on` and `action.on` become `x`;
        otherwise the data is left alone. */
    method SetOn(x: bool)
      modifies this
      ensures old(data).Some? && old(data).value.state.Some? && old(On()) != x ==>
        data == Some(WithOn(old(data).value, x))
      ensures !(old(data).Some? && old(data).value.state.Some? && old(On()) != x) ==> data == old(data)
      ensures old(data).Some? && old(data).value.state.Some? ==> On() == x
      ensures groupId == old(groupId) && name == old(name) && isRoom == old(isRoom)
      ensures lights == old(lights) && addedLights == old(addedLights) && mode == old(mode)
    {
      if data.Some? && data.value.state.Some? && On() != x {
        data := Some(WithOn(data.value, x));
      }
    }

    /** The first half of the group and room icon click: `on = !on`. With a
        state present, the flipped value is what `action.on` now holds. */
    method ToggleOn()
      requires data.Some? && data.value.state.Some?
      modifies this
      ensures On() == !old(On())
      ensures data.Some? && Get(data.value.action, "on") == Bool(On())
      ensures groupId == old(groupId) && lights == old(lights) && addedLights == old(addedLights)
    {
      SetOn(!On());
    }

    /** `addLight`: nothing happens when the light is already a member or
        staged; otherwise it is staged, the mode becomes `changed` or
        `unsaved` by whether the group has an id, and the member list is
        rendered again, which throws where a member is undefined. */
    method AddLight(light: LightElement) returns (completed: bool)
      modifies this
      ensures var key := PropKey(light.id);
        if Holds(old(lights), key) || key in old(addedLights) then
          addedLights == old(addedLights) && mode == old(mode) && completed
        else
          addedLights == old(addedLights)[key := light] && mode == EditedMode(groupId)
          && (completed <==> Renders(lights))
      ensures lights == old(lights) && groupId == old(groupId) && data == old(data)
      ensures name == old(name) && isRoom == old(isRoom)
    {
      var key := PropKey(light.id);
      if Holds(lights, key) || key in addedLights {
        return true;
      }
      addedLights := addedLights[key := light];
      mode := EditedMode(groupId);
      completed := Renders(lights);
    }

    /** `removeLight`: nothing happens when the id is neither a member nor
        staged; otherwise it leaves both maps, the mode becomes `changed`
        or `unsaved` by whether the group has an id, and the member list is
        rendered again. */
    method RemoveLight(lightId: string) returns (completed: bool)
      modifies this
      ensures if !Holds(old(lights), lightId) && lightId !in old(addedLights) then
          lights == old(lights) && addedLights == old(addedLights) && mode == old(mode) && completed
        else
          lights == old(lights) - {lightId} && addedLights == old(addedLights) - {lightId}
          && mode == EditedMode(groupId) && (completed <==> Renders(lights))
      ensures groupId == old(groupId) && data == old(data) && name == old(name) && isRoom == old(isRoom)
    {
      if !Holds(lights, lightId) && lightId !in addedLights {
        return true;
      }
      addedLights := addedLights - {lightId};
      lights := lights - {lightId};
      mode := EditedMode(groupId);
      completed := Renders(lights);
    }

    /** The first half of the save button: a group without lights is
        refused (the alert), otherwise the staged lights are merged into the
        members and cleared, and the caller saves the group. */
    method CommitAddedLights() returns (ok: bool)
      modifies this
      ensures ok <==> |old(lights).Keys| + |old(addedLights).Keys| != 0
      ensures ok ==> lights == Merged(old(lights), old(addedLights)) && addedLights == map[]
      ensures !ok ==> lights == old(lights) && addedLights == old(addedLights)
      ensures groupId == old(groupId) && data == old(data) && name == old(name)
      ensures isRoom == old(isRoom) && mode == old(mode)
    {
      if |lights.Keys| + |addedLights.Keys| == 0 {
        ok := false;
        return;
      }
      lights := Merged(lights, addedLights);
      addedLights := map[];
      ok := true;
    }

    /** The edit button. */
    method EditClicked()
      modifies this
      ensures mode == Changed && NameEditable()
      ensures groupId == old(groupId) && data == old(data) && name == old(name)
      ensures lights == old(lights) && addedLights == old(addedLights) && isRoom == old(isRoom)
    {
      mode := Changed;
    }

    /** The cancel button: the name comes back from the data (an empty
        object gives an empty name), the staged lights are dropped, the
        member list is rendered again and the mode becomes `saved`. Members
        removed earlier stay removed. Where a member is undefined the
        rendering throws and the mode stays. */
    method CancelClicked() returns (completed: bool)
      modifies this
      ensures name == (if data.Some? then data.value.name else "")
      ensures addedLights == map[] && (completed <==> Renders(lights))
      ensures completed ==> mode == Saved && !NameEditable()
      ensures !completed ==> mode == old(mode)
      ensures lights == old(lights) && groupId == old(groupId) && data == old(data) && isRoom == old(isRoom)
    {
      name := if data.Some? then data.value.name else "";
      addedLights := map[];
      completed := Renders(lights);
      if completed {
        mode := Saved;
      }
    }
  }
}
