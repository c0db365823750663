/**
 * The decision-making state of the main window: the `device_widgets` table, the
 * `last_state` entry of each widget and the cached status poll, with the operations
 * that read or change them. Remote reads are given as maps from device id to the
 * status a read returns (no entry, or an empty map, is a failed read); the outcome of
 * a posted command is given as a boolean.
 */
module CloudUi {
  import opened Commands
  import opened CategoryStatus
  import opened Widgets
  import FanConfig

  /** How one `device_action` call ended. */
  datatype Outcome =
    | Skipped                                 // the status read came back empty; nothing was sent
    | Failed(sent: Value)                     // the command was sent and not accepted
    | Succeeded(sent: Value, ui: Indicators)  // the command was accepted; the indicators then shown

  class CloudUI {
    /** `ctrl.devices`: the entries of the device file, in file order. */
    const devices: seq<Device>
    /** `device_widgets`: its keys in insertion order and the category of each. */
    const widgets: Table
    /** The `last_state` entries of `device_widgets`. */
    var lastState: map<string, bool>
    /** `cached_states`: the latest poll of every device. */
    var cachedStates: map<string, DeviceStatus>

    ghost predicate Valid()
      reads this
    {
      widgets == WidgetTable(devices) && lastState.Keys <= widgets.cats.Keys
    }

    /**
     * Builds the window's table: the two master entries, then each fan and light of the
     * file, each read once right after it is added; then polls every device.
     */
    constructor (devices: seq<Device>, polled: map<string, DeviceStatus>)
      ensures Valid()
      ensures this.devices == devices
      ensures lastState == InitialLastState(devices, polled)
      ensures cachedStates == Poll(devices, polled)
    {
      var t := MasterTable();
      var last: map<string, bool> := map[];
      var i := 0;
      while i < |devices|
        invariant 0 <= i <= |devices|
        invariant t == WidgetTable(devices[..i])
        invariant last == InitialLastState(devices[..i], polled)
        invariant last.Keys <= t.cats.Keys
      {
        var d := devices[i];
        assert devices[..i + 1][..i] == devices[..i];
        if d.category == Fan || d.category == Light {
          t := Insert(t, d.id, d.category);
          last := Refreshed(last - {d.id}, d.id, d.category, Fetch(polled, d.id));
        }
        i := i + 1;
      }
      assert devices[..i] == devices;
      this.devices := devices;
      widgets := t;
      lastState := last;
      cachedStates := Poll(devices, polled);
    }

    /**
     * `update_device_status`: a non-empty read of a device in the table sets its
     * `last_state` to its switch value and redraws its indicators; otherwise nothing.
     */
    method UpdateDeviceStatus(devId: string, status: DeviceStatus) returns (ui: Option<Indicators>)
      requires Valid()
      modifies this
      ensures Valid() && cachedStates == old(cachedStates)
      ensures status != map[] && devId in widgets.cats ==>
        lastState == old(lastState)[devId := SwitchValue(widgets.cats[devId], status)] &&
        ui == Some(IndicatorsFor(widgets, lastState, devId))
      ensures !(status != map[] && devId in widgets.cats) ==> lastState == old(lastState) && ui == None
    {
      ui := None;
      if status != map[] && devId in widgets.cats {
        var isOn := SwitchValue(widgets.cats[devId], status);
        lastState := lastState[devId := isOn];
        ui := Some(IndicatorsFor(widgets, lastState, devId));
      }
    }

    /**
     * `device_action`. `current` is what a status read of the device returns at that
     * moment, `accepted` whether the remote accepted the command, and `repolled` what
     * the full poll after an accepted command returns.
     */
    method DeviceAction(devId: string, cmd: string, value: Value, force: bool,
                        current: DeviceStatus, accepted: bool, repolled: map<string, DeviceStatus>)
      returns (outcome: Outcome)
      requires Valid() && devId in widgets.cats
      modifies this
      ensures Valid()
      ensures Decide(cmd, value, force, current).Skip? ==>
        outcome == Skipped && lastState == old(lastState) && cachedStates == old(cachedStates)
      ensures Decide(cmd, value, force, current).Send? && !accepted ==>
        outcome == Failed(Decide(cmd, value, force, current).value) &&
        lastState == old(lastState) && cachedStates == old(cachedStates)
      ensures Decide(cmd, value, force, current).Send? && accepted ==>
        var sent := Decide(cmd, value, force, current).value;
        var previous := if devId in old(lastState) then Some(old(lastState)[devId]) else None;
        lastState == old(lastState)[devId := LastStateAfter(cmd, sent, previous)] &&
        cachedStates == Poll(devices, repolled) &&
        outcome == Succeeded(sent, IndicatorsFor(widgets, lastState, devId))
    {
      var finalValue := value;
      if !force && IsSwitch(cmd) {
        if current == map[] {
          return Skipped;
        }
        var currentState := SwitchValueOf(current, cmd);
        finalValue := Bool(!currentState);
      }
      var toSend := if cmd != FanSpeed then Bool(Truthy(finalValue)) else Int(AsInt(value));
      if accepted {
        var previous := if devId in lastState then Some(lastState[devId]) else None;
        lastState := lastState[devId := LastStateAfter(cmd, toSend, previous)];
        cachedStates := Poll(devices, repolled);
        outcome := Succeeded(toSend, IndicatorsFor(widgets, lastState, devId));
      } else {
        outcome := Failed(toSend);
      }
    }

    /**
     * `update_all_statuses`: walks a full poll in poll order, refreshes each device in
     * the table from a second read (`reread`), and sorts the polled switch states into
     * the fan list and the list of everything else; returns the three status lines.
     */
    method UpdateAllStatuses(polled: map<string, DeviceStatus>, reread: map<string, DeviceStatus>)
      returns (fanStates: seq<bool>, lightStates: seq<bool>, fans: Classification, lights: Classification, all: Classification)
      requires Valid()
      modifies this
      ensures Valid() && cachedStates == old(cachedStates)
      ensures fanStates == FanStates(PollOrder(devices), widgets.cats, polled)
      ensures lightStates == LightStates(PollOrder(devices), widgets.cats, polled)
      ensures lastState == RefreshAll(old(lastState), PollOrder(devices), widgets.cats, reread)
      ensures fans == Classify(fanStates) && lights == Classify(lightStates) && all == Classify(fanStates + lightStates)
    {
      var ids := PollOrder(devices);
      fanStates, lightStates := [], [];
      var i := 0;
      while i < |ids|
        invariant 0 <= i <= |ids|
        invariant Valid() && cachedStates == old(cachedStates)
        invariant fanStates == FanStates(ids[..i], widgets.cats, polled)
        invariant lightStates == LightStates(ids[..i], widgets.cats, polled)
        invariant lastState == RefreshAll(old(lastState), ids[..i], widgets.cats, reread)
      {
        var devId := ids[i];
        assert ids[..i + 1][..i] == ids[..i] && ids[..i + 1][i] == devId;
        if devId in widgets.cats {
          var category := widgets.cats[devId];
          ghost var before := lastState;
          var _ := UpdateDeviceStatus(devId, Fetch(reread, devId));
          assert lastState == Refreshed(before, devId, category, Fetch(reread, devId));
          var isOn := SwitchValueOf(Fetch(polled, devId), StatusSwitch(category));
          if category == Fan {
            fanStates := fanStates + [isOn];
          } else {
            lightStates := lightStates + [isOn];
          }
        }
        i := i + 1;
      }
      assert ids[..i] == ids;
      fans := Classify(fanStates);
      lights := Classify(lightStates);
      all := Classify(fanStates + lightStates);
    }

    /** `set_category_state`: the batch that switches every entry of one category. */
    method SetCategoryState(category: string, state: bool) returns (actions: seq<Action>)
      requires Valid()
      ensures actions == CategoryActions(widgets.keys, widgets.cats, category, state)
    {
      actions := [];
      var keys := widgets.keys;
      var i := 0;
      while i < |keys|
        invariant 0 <= i <= |keys|
        invariant actions == CategoryActions(keys[..i], widgets.cats, category, state)
      {
        var devId := keys[i];
        assert keys[..i + 1][..i] == keys[..i];
        if devId in widgets.cats && widgets.cats[devId] == category {
          var cmd := if category == Fan then SwitchFan else SwitchLight;
          actions := actions + [Action(devId, cmd, Bool(state), true)];
        }
        i := i + 1;
      }
      assert keys[..i] == keys;
    }

    /** `set_all_state` as written: the batch that switches every entry of the table, master entries included. */
    method SetAllState(state: bool) returns (actions: seq<Action>)
      requires Valid()
      ensures actions == AllActions(widgets.keys, widgets.cats, state)
    {
      actions := [];
      var keys := widgets.keys;
      var i := 0;
      while i < |keys|
        invariant 0 <= i <= |keys|
        invariant actions == AllActions(keys[..i], widgets.cats, state)
      {
        var devId := keys[i];
        assert keys[..i + 1][..i] == keys[..i];
        if devId in widgets.cats {
          var cmd := if widgets.cats[devId] == Fan then SwitchFan else SwitchLight;
          actions := actions + [Action(devId, cmd, Bool(state), true)];
        }
        i := i + 1;
      }
      assert keys[..i] == keys;
    }

    /** `set_all_state` as intended: the batch that switches every fan and light, and nothing else. */
    method SetAllDevicesState(state: bool) returns (actions: seq<Action>)
      requires Valid()
      ensures actions == DeviceActions(widgets.keys, widgets.cats, state)
      ensures forall a :: a in actions ==> HasId(devices, a.devId)
    {
      actions := [];
      var keys := widgets.keys;
      var i := 0;
      while i < |keys|
        invariant 0 <= i <= |keys|
        invariant actions == DeviceActions(keys[..i], widgets.cats, state)
      {
        var devId := keys[i];
        assert keys[..i + 1][..i] == keys[..i];
        if devId in widgets.cats && (widgets.cats[devId] == Fan || widgets.cats[devId] == Light) {
          var cmd := if widgets.cats[devId] == Fan then SwitchFan else SwitchLight;
          actions := actions + [Action(devId, cmd, Bool(state), true)];
        }
        i := i + 1;
      }
      assert keys[..i] == keys;
      DeviceActionsTargetTheFile(devices, state);
    }

    /**
     * `normalize_fan_speeds`: reads each fan (`polled`) and builds the batch that sets
     * every fan that is on to the normal speed of its name.
     */
    method NormalizeFanSpeeds(polled: map<string, DeviceStatus>) returns (actions: seq<Action>)
      requires Valid()
      ensures actions == NormalizeActions(widgets.keys, widgets.cats, devices, polled)
      ensures forall a :: a in actions ==>
        a.cmd == FanSpeed && a.force && (a.value == Int(FanConfig.ExhaustSpeed) || a.value == Int(FanConfig.RegularSpeed))
    {
      actions := [];
      var keys := widgets.keys;
      var i := 0;
      while i < |keys|
        invariant 0 <= i <= |keys|
        invariant actions == NormalizeActions(keys[..i], widgets.cats, devices, polled)
      {
        var devId := keys[i];
        assert keys[..i + 1][..i] == keys[..i];
        if devId in widgets.cats && widgets.cats[devId] == Fan {
          var status := Fetch(polled, devId);
          if status != map[] && SwitchValueOf(status, SwitchFan) {
            FanEntryIsListed(devices, devId);
            var name := FirstName(devices, devId);
            var speed := FanConfig.GetNormalSpeed(name);
            actions := actions + [Action(devId, FanSpeed, Int(speed), true)];
          }
        }
        i := i + 1;
      }
      assert keys[..i] == keys;
      NormalizeSpeedsAreNormal(keys, widgets.cats, devices, polled);
    }
  }

  /** The "All" status line classifies the switch states of every polled device in the table, in any order. */
  lemma AllStatusCoversKnownDevices(ids: seq<string>, cats: map<string, string>, polled: map<string, DeviceStatus>)
    ensures Classify(FanStates(ids, cats, polled) + LightStates(ids, cats, polled)) == Classify(KnownStates(ids, cats, polled))
  {
    PartitionIsPermutation(ids, cats, polled);
    ClassifyIgnoresOrder(FanStates(ids, cats, polled) + LightStates(ids, cats, polled), KnownStates(ids, cats, polled));
  }

  /** A device file with one fan "f1" and one light "l1". */
  function OneFanOneLight(): seq<Device> {
    [Device("Fan", "f1", Fan), Device("Light", "l1", Light)]
  }

  lemma OneFanOneLightOrder()
    ensures PollOrder(OneFanOneLight()) == ["f1", "l1"]
  {
    var devices := OneFanOneLight();
    var first := devices[..1];
    assert first == [devices[0]] && first[..0] == [];
    assert PollOrder(first) == ["f1"];
  }

  lemma OneFanOneLightTable()
    ensures var t := WidgetTable(OneFanOneLight());
            "f1" in t.cats && t.cats["f1"] == Fan && "l1" in t.cats && t.cats["l1"] == Light
  {
    var devices := OneFanOneLight();
    var first := devices[..1];
    assert first == [devices[0]] && first[..0] == [];
    var t1 := WidgetTable(first);
    assert WidgetTable(first[..0]) == MasterTable();
    assert first[|first| - 1] == Device("Fan", "f1", Fan);
    assert t1 == Insert(MasterTable(), "f1", Fan);
    assert t1.cats == MasterTable().cats["f1" := Fan];
    assert WidgetTable(devices).cats == t1.cats["l1" := Light];
  }

  /** When every polled device in the table reads on, neither list holds an off state. */
  lemma {:induction false} EveryDeviceReadsOn(ids: seq<string>, cats: map<string, string>, polled: map<string, DeviceStatus>)
    requires forall id :: id in ids && id in cats ==> SwitchValue(cats[id], Fetch(polled, id))
    ensures false !in FanStates(ids, cats, polled) && false !in LightStates(ids, cats, polled)
  {
    if ids != [] {
      EveryDeviceReadsOn(ids[..|ids| - 1], cats, polled);
    }
  }

  /**
   * One fan "f1" and one light "l1", both reading on: the fan, light and overall
   * status lines all read On.
   */
  lemma BothDevicesOnScenario()
    ensures var devices := OneFanOneLight();
            var polled := map["f1" := map[SwitchFan := Bool(true)], "l1" := map[SwitchLight := Bool(true)]];
            var t := WidgetTable(devices);
            var fans := FanStates(PollOrder(devices), t.cats, polled);
            var lights := LightStates(PollOrder(devices), t.cats, polled);
            Classify(fans).status == On && Classify(lights).status == On && Classify(fans + lights).status == On
  {
    var devices := OneFanOneLight();
    var polled := map["f1" := map[SwitchFan := Bool(true)], "l1" := map[SwitchLight := Bool(true)]];
    OneFanOneLightOrder();
    OneFanOneLightTable();
    var ids := PollOrder(devices);
    var t := WidgetTable(devices);
    assert SwitchValue(Fan, Fetch(polled, "f1")) && SwitchValue(Light, Fetch(polled, "l1"));
    EveryDeviceReadsOn(ids, t.cats, polled);
    var fans := FanStates(ids, t.cats, polled);
    var lights := LightStates(ids, t.cats, polled);
    assert ids[..1] == ["f1"] && ids[..1][..0] == [];
    assert |fans| > 0 && |lights| > 0;
    assert false !in fans + lights;
  }
}
