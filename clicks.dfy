/**
 * The button handlers of the light, group and scene elements that call into
 * the connector (js/modules/elements/lightelement.js,
 * js/modules/elements/lightgroupelement.js,
 * js/modules/elements/lightsceneelement.js). Each is the element's own edit
 * followed by the connector operation it triggers; the bridge's answers are
 * parameters, as in the connector. The scene icon is the connector's
 * `SetSceneState` itself.
 */
module Clicks {
  import opened Js
  import opened LightEl
  import opened GroupEl
  import opened SceneEl
  import opened Bridge

  /** The light icon: `data.state.on` is negated in place and the light's
      state is sent. A light whose data is the empty object makes the
      handler throw before any request. The PUT carries the negated flag;
      the refresh after it stops at a group whose setter throws. */
  method LightIconClicked(bridge: BridgeConnector, light: LightElement, replies: Replies, groupOrder: seq<string>)
    returns (completed: bool, ghost refreshed: seq<Element>, ghost count: nat)
    requires Enumerates(groupOrder, bridge.groups.Keys)
    modifies bridge`log, light, bridge.groups.Values
    ensures old(light.data).None? ==> !completed && bridge.log == old(bridge.log) && unchanged(light)
    ensures old(light.data).Some? ==> var sent := Toggled(old(light.data.value)).state;
      count <= |refreshed|
      && bridge.log == old(bridge.log) + [Request(Path("lights", old(light.id)) + "/state", PUT, StateBody(Payload(sent))),
                                          Request(Path("lights", old(light.id)), GET, NoBody)] + Refetches(refreshed[..count])
      && "on" in Payload(sent) && Payload(sent)["on"] == Bool(!Truthy(Get(old(light.data.value.state), "on")))
      && refreshed == FirstOccurrences([LightItem(light)] + old(GroupHits([PropKey(light.id)], groupOrder, bridge.groups)))
    ensures completed ==> count == |refreshed|
    ensures !completed && old(light.data).Some? ==> 0 < count && !Loads(refreshed[count - 1], replies, bridge.lights)
  {
    if light.data.None? {
      return false, [], 0;
    }
    light.ToggleStateOn();
    completed, refreshed, count := bridge.SetLightState(light, None, replies, groupOrder);
  }

  /** The light's save button: `_name` is dropped, the name is PUT, and the
      light is back in mode `saved`. */
  method LightSaveClicked(bridge: BridgeConnector, light: LightElement, answer: Answer)
    modifies bridge`log, bridge`events, light
    ensures light.savedName == None && light.mode == Saved && light.name == old(light.name)
    ensures bridge.log == old(bridge.log) + [Request(Path("lights", old(light.id)), PUT, RenameBody(old(light.name)))]
    ensures bridge.events == old(bridge.events) + (if Succeeded(answer) then [] else [ErrorReported])
  {
    light.SaveClicked();
    bridge.UpdateLight(light, answer);
  }

  /** The group and room icons: `on = !on`, then the group's action is
      sent. With a state present the action sent carries the flipped flag;
      without one the setter writes nothing and the old action goes out.
      A group whose data is the empty object throws before any request;
      `completed` is also false where the refresh after the PUT throws. */
  method GroupIconClicked(bridge: BridgeConnector, group: LightGroupElement, replies: Replies,
                          order: seq<string>, groupOrder: seq<string>) returns (completed: bool)
    requires Enumerates(order, group.lights.Keys) && Enumerates(groupOrder, bridge.groups.Keys)
    modifies bridge`log, Reach(GroupItem(group), bridge.groups)
    ensures old(group.data).None? ==> !completed && bridge.log == old(bridge.log) && unchanged(group)
    ensures old(group.data).Some? ==> var d := old(group.data.value);
      var sent := if d.state.Some? then d.action["on" := Bool(!old(group.On()))] else d.action;
      |bridge.log| > |old(bridge.log)|
      && bridge.log[|old(bridge.log)|] == Request(Path("groups", old(group.groupId)) + "/action", PUT, StateBody(Payload(sent)))
    ensures old(group.data).Some? && old(group.data.value.state).Some? ==>
      var sent := old(group.data.value.action)["on" := Bool(!old(group.On()))];
      "on" in Payload(sent) && Payload(sent)["on"] == Bool(!old(group.On()))
  {
    if group.data.None? {
      return false;
    }
    group.SetOn(!group.On());
    TargetsWithin(GroupItem(group), order, groupOrder, bridge.groups);
    ghost var refreshed, count;
    completed, refreshed, count := bridge.SetGroupState(group, None, replies, order, groupOrder);
  }

  /** The group's save button: a group without lights is refused;
      otherwise the staged lights join the members and the group is saved,
      its request listing every member (`order` enumerates the merged
      keys). */
  method GroupSaveClicked(bridge: BridgeConnector, group: LightGroupElement, order: seq<string>,
                          answer: Answer, reply: GroupData) returns (saved: bool)
    requires bridge.Valid() && Enumerates(order, group.lights.Keys + group.addedLights.Keys)
    modifies bridge`groupsUnSaved, bridge`groups, bridge`log, bridge`events, group
    ensures saved <==> |old(group.lights).Keys| + |old(group.addedLights).Keys| != 0
    ensures !saved ==>
      bridge.log == old(bridge.log) && bridge.groups == old(bridge.groups)
      && group.lights == old(group.lights) && group.addedLights == old(group.addedLights)
    ensures saved ==>
      |bridge.log| > |old(bridge.log)|
      && bridge.log[|old(bridge.log)|] == if old(TruthyId(group.groupId))
        then Request(Path("groups", old(group.groupId)), PUT, GroupMembersBody(old(group.name), order))
        else Request("groups", POST, NewGroupBody(old(group.name), order, "LightGroup"))
    ensures saved && old(TruthyId(group.groupId)) ==>
      group.lights == Merged(old(group.lights), old(group.addedLights)) && group.addedLights == map[]
      && group.mode == Saved
    ensures old(group !in bridge.groups.Values) ==> bridge.Valid()
  {
    saved := group.CommitAddedLights();
    if saved {
      var created := bridge.SaveGroup(group, order, answer, reply);
    }
  }

  /** The scene's save button: the same for scenes. */
  method SceneSaveClicked(bridge: BridgeConnector, scene: LightSceneElement, order: seq<string>,
                          answer: Answer, reply: SceneData, targets: Lightstates) returns (saved: bool, completed: bool)
    requires bridge.Valid() && Enumerates(order, scene.lights.Keys + scene.addedLights.Keys)
    modifies bridge`scenesUnSaved, bridge`scenes, bridge`log, bridge`events, scene
    ensures saved <==> |old(scene.lights).Keys| + |old(scene.addedLights).Keys| != 0
    ensures !saved ==>
      !completed && bridge.log == old(bridge.log) && bridge.scenes == old(bridge.scenes)
      && scene.lights == old(scene.lights) && scene.addedLights == old(scene.addedLights)
    ensures saved ==>
      |bridge.log| > |old(bridge.log)|
      && bridge.log[|old(bridge.log)|] == if old(TruthyId(scene.sceneId))
        then Request(Path("scenes", old(scene.sceneId)), PUT, SceneMembersBody(old(scene.name), order, true))
        else Request("scenes", POST, NewSceneBody(old(scene.name), order, false))
    ensures saved && old(TruthyId(scene.sceneId)) ==>
      scene.lights == Merged(old(scene.lights), old(scene.addedLights)) && scene.addedLights == map[]
      && scene.mode == Saved
    ensures old(scene !in bridge.scenes.Values) ==> bridge.Valid()
  {
    saved := scene.CommitAddedLights();
    completed := false;
    if saved {
      completed := bridge.SaveScene(scene, order, answer, reply, targets);
    }
  }

  /** The group's delete button: a draft is deleted at once; a saved group
      only when the user confirms (`confirmed`, the answer of the dialog). */
  method GroupDeleteClicked(bridge: BridgeConnector, group: LightGroupElement, confirmed: bool, answer: Answer)
    requires bridge.Valid()
    modifies bridge`groupsUnSaved, bridge`groups, bridge`log, bridge`events
    ensures bridge.Valid()
    ensures TruthyId(group.groupId) && !confirmed ==>
      bridge.groups == old(bridge.groups) && bridge.groupsUnSaved == old(bridge.groupsUnSaved)
      && bridge.log == old(bridge.log) && bridge.events == old(bridge.events)
    ensures !TruthyId(group.groupId) ==>
      bridge.groupsUnSaved == Without(old(bridge.groupsUnSaved), group) && bridge.log == old(bridge.log)
    ensures TruthyId(group.groupId) && confirmed ==>
      bridge.log == old(bridge.log) + [Request(Path("groups", group.groupId), DELETE, NoBody)]
      && bridge.groups == if Succeeded(answer) then old(bridge.groups) - {PropKey(group.groupId)} else old(bridge.groups)
  {
    if !TruthyId(group.groupId) || confirmed {
      bridge.DeleteGroup(group, answer);
    }
  }

  /** The scene's delete button: the same for scenes. */
  method SceneDeleteClicked(bridge: BridgeConnector, scene: LightSceneElement, confirmed: bool, answer: Answer)
    requires bridge.Valid()
    modifies bridge`scenesUnSaved, bridge`scenes, bridge`log, bridge`events
    ensures bridge.Valid()
    ensures TruthyId(scene.sceneId) && !confirmed ==>
      bridge.scenes == old(bridge.scenes) && bridge.scenesUnSaved == old(bridge.scenesUnSaved)
      && bridge.log == old(bridge.log) && bridge.events == old(bridge.events)
    ensures !TruthyId(scene.sceneId) ==>
      bridge.scenesUnSaved == Without(old(bridge.scenesUnSaved), scene) && bridge.log == old(bridge.log)
    ensures TruthyId(scene.sceneId) && confirmed ==>
      bridge.log == old(bridge.log) + [Request(Path("scenes", scene.sceneId), DELETE, NoBody)]
      && bridge.scenes == if Succeeded(answer) then old(bridge.scenes) - {PropKey(scene.sceneId)} else old(bridge.scenes)
  {
    if !TruthyId(scene.sceneId) || confirmed {
      bridge.DeleteScene(scene, answer);
    }
  }
}
