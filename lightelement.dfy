/**
 * The light element (js/modules/elements/lightelement.js): the editable view
 * of one bridge light. Its state lives in the fields `_id`, `_data`, `_mode`
 * and `_name`; the `name`, `room` and `on` properties are stored in its DOM
 * (the text of the name and room nodes, the "on" CSS class) and are fields
 * here.
 */
module LightEl {
  import opened Js

  /** A light as the bridge describes it; `tag` is the `_id` property the
      connector attaches before handing the object to an element. */
  datatype LightData = LightData(tag: Option<string>, name: string, lightType: string, state: State)

  /** The `data.state.on` flag after the icon click negated it in place. */
  function Toggled(d: LightData): (r: LightData)
    ensures r.tag == d.tag && r.name == d.name && r.lightType == d.lightType
    ensures Truthy(Get(r.state, "on")) == !Truthy(Get(d.state, "on"))
    ensures forall k :: k in d.state && k != "on" ==> k in r.state && r.state[k] == d.state[k]
    ensures r.state.Keys == d.state.Keys + {"on"}
  {
    d.(state := d.state["on" := Bool(!Truthy(Get(d.state, "on")))])
  }

  class LightElement {
    var id: Option<string>
    /** `_data`; `None` is the empty object the constructor installs. */
    var data: Option<LightData>
    var name: string
    var room: string
    var on: bool
    var mode: Mode
    /** `_name`: the name saved when editing starts; `None` once deleted. */
    var savedName: Option<string>

    constructor ()
      ensures id == None && data == None && mode == Saved
      ensures name == "" && room == "" && !on && savedName == None
    {
      id := None;
      data := None;
      name := "";
      room := "";
      on := false;
      mode := Saved;
      savedName := None;
    }

    /** The name is editable exactly in mode `changed`. */
    predicate NameEditable()
      reads this
    {
      mode == Changed
    }

    /** The `data` setter: the id is replaced only by a truthy `_id`; the
        name and the "on" class are derived from the new data. */
    method SetData(value: LightData)
      modifies this`id, this`data, this`name, this`on
      ensures id == (if TruthyId(value.tag) then value.tag else old(id))
      ensures data == Some(value)
      ensures name == value.name
      ensures on == Truthy(Get(value.state, "on"))
      ensures room == old(room) && mode == old(mode) && savedName == old(savedName)
    {
      if TruthyId(value.tag) {
        id := value.tag;
      }
      data := Some(value);
      name := value.name;
      on := Truthy(Get(value.state, "on"));
    }

    /** The first half of the icon click: `data.state.on` is negated in
        place. The "on" class is not touched; it follows the data only when
        the bridge's answer is stored by the next `SetData`. */
    method ToggleStateOn()
      requires data.Some?
      modifies this
      ensures data == Some(Toggled(old(data.value)))
      ensures id == old(id) && name == old(name) && room == old(room)
      ensures on == old(on) && mode == old(mode) && savedName == old(savedName)
    {
      data := Some(Toggled(data.value));
    }

    /** The save button's own part: `_name` is deleted and the mode
        becomes `saved`; the rename itself is the connector's
        `updateLight`. */
    method SaveClicked()
      modifies this
      ensures savedName == None && mode == Saved && !NameEditable()
      ensures id == old(id) && data == old(data) && name == old(name)
      ensures room == old(room) && on == old(on)
    {
      savedName := None;
      mode := Saved;
    }

    /** The edit button keeps the current name and enters mode `changed`. */
    method EditClicked()
      modifies this
      ensures savedName == Some(old(name)) && mode == Changed
      ensures id == old(id) && data == old(data) && name == old(name)
      ensures room == old(room) && on == old(on)
    {
      savedName := Some(name);
      mode := Changed;
    }

    /** The cancel button puts the saved name back (an undefined `_name`
        empties the name text) and returns to mode `saved`. */
    method CancelClicked()
      modifies this
      ensures name == (if old(savedName).Some? then old(savedName).value else "")
      ensures mode == Saved
      ensures id == old(id) && data == old(data) && savedName == old(savedName)
      ensures room == old(room) && on == old(on)
    {
      name := if savedName.Some? then savedName.value else "";
      mode := Saved;
    }
  }

  /** Editing and then cancelling leaves the name as it was. */
  method EditThenCancel(light: LightElement)
    modifies light
    ensures light.name == old(light.name) && light.mode == Saved
    ensures !light.NameEditable()
  {
    light.EditClicked();
    assert light.NameEditable();
    light.CancelClicked();
  }

  /** A new light starts in mode `saved`, so its name is not editable. */
  method NewLightNotEditable() returns (light: LightElement)
    ensures fresh(light) && !light.NameEditable() && light.id == None
  {
    light := new LightElement();
  }

  /** The member map the group and scene `data` setters rebuild:
      `lights[id] = bridge.lights[id]` for every listed id, undefined
      (`None`) where the bridge's cache has no such light. */
  function Members(ids: seq<string>, known: map<string, LightElement>): map<string, Option<LightElement>>
  {
    map i | i in ids :: if i in known then Some(known[i]) else None
  }

  /** A member map has a key for every listed id, holding the cached
      light or, for an id the cache lacks, undefined. */
  lemma MembersMeaning(ids: seq<string>, known: map<string, LightElement>, id: string)
    ensures id in Members(ids, known) <==> id in ids
    ensures id in Members(ids, known) ==>
      Members(ids, known)[id] == (if id in known then Some(known[id]) else None)
  {
  }

  /** Every listed id is in the bridge's cache. */
  predicate AllCached(ids: seq<string>, known: map<string, LightElement>)
  {
    forall l :: l in ids ==> l in known
  }

  /** `_refreshLightsDom` of a group or scene reads `light.name` of every
      member, so it returns only when no member is undefined. */
  predicate Renders(m: map<string, Option<LightElement>>)
  {
    forall k :: k in m ==> m[k].Some?
  }

  /** The rebuilt member map renders exactly when every listed id is
      cached: one uncached id makes the setters throw. */
  lemma {:induction false} MembersRender(ids: seq<string>, known: map<string, LightElement>)
    ensures Renders(Members(ids, known)) <==> AllCached(ids, known)
  {
    if !AllCached(ids, known) {
      var l :| l in ids && l !in known;
      assert Members(ids, known)[l].None?;
    }
  }

  /** `this.lights[id]` is truthy: the key is present and holds a light. */
  predicate Holds(m: map<string, Option<LightElement>>, key: string)
  {
    key in m && m[key].Some?
  }

  /** `Object.assign(lights, addedLights)`: the staged lights join, and win
      on a shared key. */
  function Merged(lights: map<string, Option<LightElement>>, added: map<string, LightElement>): (m: map<string, Option<LightElement>>)
    ensures m.Keys == lights.Keys + added.Keys
    ensures forall k :: k in added ==> m[k] == Some(added[k])
    ensures forall k :: k in lights && k !in added ==> m[k] == lights[k]
  {
    map k | k in lights.Keys + added.Keys :: if k in added then Some(added[k]) else lights[k]
  }

  /** The mode an add or remove moves a group or scene to: `changed` when it
      is saved on the bridge (it has a truthy id), `unsaved` otherwise. */
  function EditedMode(id: Option<string>): (m: Mode)
    ensures m == Changed <==> TruthyId(id)
    ensures m == Unsaved <==> !TruthyId(id)
  {
    if TruthyId(id) then Changed else Unsaved
  }
}
