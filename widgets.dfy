/**
 * The device file, the `device_widgets` table built from it, and the functions that
 * specify what `CloudUI` computes from that table: the batch action lists, the split of
 * polled switch states into fans and lights, the refreshed `last_state` entries and the
 * "all on" indicators.
 */
module Widgets {
  import opened Commands
  import FanConfig

  /** One entry of the device file: display name, vendor id and category tag. */
  datatype Device = Device(name: string, id: string, category: string)

  /** The two pseudo-entries the window registers for its master indicators. */
  const MasterFans: string := "master_fans"
  const MasterLights: string := "master_lights"
  const MasterFanCategory: string := "master_fskg"
  const MasterLightCategory: string := "master_tdq"

  predicate IsDeviceCategory(category: string) {
    category == Fan || category == Light
  }

  // ---------------------------------------------------------------------------
  // The device file

  /** Some entry of the file has this id. */
  predicate HasId(devices: seq<Device>, id: string) {
    exists i :: 0 <= i < |devices| && devices[i].id == id
  }

  /** Some entry of the file has this id and this category. */
  predicate HasEntry(devices: seq<Device>, id: string, category: string) {
    exists i :: 0 <= i < |devices| && devices[i].id == id && devices[i].category == category
  }

  /** The index of the first entry of the file with this id. */
  function FirstIndex(devices: seq<Device>, id: string): (i: nat)
    requires HasId(devices, id)
    ensures i < |devices| && devices[i].id == id
    ensures forall j :: 0 <= j < i ==> devices[j].id != id
  {
    if devices[0].id == id then 0
    else
      assert HasId(devices[1..], id) by {
        var i :| 0 <= i < |devices| && devices[i].id == id;
        assert devices[1..][i - 1].id == id;
      }
      var i := FirstIndex(devices[1..], id);
      assert forall j :: 1 <= j < i + 1 ==> devices[j].id != id by {
        forall j | 1 <= j < i + 1 ensures devices[j].id != id {
          assert devices[j] == devices[1..][j - 1];
        }
      }
      i + 1
  }

  /** An id first listed in a prefix of the file is first listed at the same index in the whole file. */
  lemma FirstIndexOfPrefix(devices: seq<Device>, n: nat, id: string)
    requires n <= |devices| && HasId(devices[..n], id)
    ensures HasId(devices, id)
    ensures FirstIndex(devices[..n], id) == FirstIndex(devices, id)
  {
    var i := FirstIndex(devices[..n], id);
    assert devices[i] == devices[..n][i];
    assert forall j :: 0 <= j < i ==> devices[j] == devices[..n][j];
  }

  /** The name of the first entry of the file with this id. */
  function FirstName(devices: seq<Device>, id: string): (name: string)
    requires HasId(devices, id)
    ensures exists i :: 0 <= i < |devices| && devices[i].id == id && devices[i].name == name &&
                        forall j :: 0 <= j < i ==> devices[j].id != id
  {
    devices[FirstIndex(devices, id)].name
  }

  /** The ids of the file, each once, in the order of their first entry: the keys of a full poll. */
  function PollOrder(devices: seq<Device>): (ids: seq<string>)
    ensures Distinct(ids)
    ensures forall id :: id in ids <==> HasId(devices, id)
  {
    if devices == [] then []
    else
      var init := devices[..|devices| - 1];
      var d := devices[|devices| - 1];
      var ids := PollOrder(init);
      assert forall id :: HasId(devices, id) <==> HasId(init, id) || id == d.id by {
        forall id | HasId(devices, id) ensures HasId(init, id) || id == d.id {
          var i :| 0 <= i < |devices| && devices[i].id == id;
          if i < |devices| - 1 { assert init[i].id == id; }
        }
        forall id | HasId(init, id) ensures HasId(devices, id) {
          var i :| 0 <= i < |init| && init[i].id == id;
          assert devices[i].id == id;
        }
      }
      if d.id in ids then ids else ids + [d.id]
  }

  /** A full poll visits the ids in the order of their first entry in the file. */
  lemma {:induction false} PollOrderFollowsFile(devices: seq<Device>)
    ensures forall i, j :: 0 <= i < j < |PollOrder(devices)| ==>
              FirstIndex(devices, PollOrder(devices)[i]) < FirstIndex(devices, PollOrder(devices)[j])
  {
    if devices != [] {
      var init := devices[..|devices| - 1];
      var d := devices[|devices| - 1];
      var ids := PollOrder(init);
      PollOrderFollowsFile(init);
      forall k | 0 <= k < |ids| ensures FirstIndex(init, ids[k]) == FirstIndex(devices, ids[k]) {
        FirstIndexOfPrefix(devices, |devices| - 1, ids[k]);
      }
    }
  }

  /** `get_all_statuses`: each id of the file mapped to its status read. */
  function Poll(devices: seq<Device>, polled: map<string, DeviceStatus>): (all: map<string, DeviceStatus>)
    ensures forall id :: id in all <==> HasId(devices, id)
    ensures forall id :: id in all ==> all[id] == Fetch(polled, id)
  {
    map id | id in PollOrder(devices) :: Fetch(polled, id)
  }

  // ---------------------------------------------------------------------------
  // The widget table

  predicate Distinct(s: seq<string>) {
    forall i, j :: 0 <= i < j < |s| ==> s[i] != s[j]
  }

  /** `device_widgets` as an insertion-ordered dictionary: its keys in order, and each key's category. */
  datatype Table = Table(keys: seq<string>, cats: map<string, string>)

  ghost predicate WellFormed(t: Table) {
    Distinct(t.keys) && forall k :: k in t.cats <==> k in t.keys
  }

  /** Dictionary assignment: a new key goes last, an existing key keeps its place. */
  function Insert(t: Table, k: string, category: string): (r: Table)
    requires WellFormed(t)
    ensures WellFormed(r)
    ensures r.cats == t.cats[k := category]
    ensures k in t.cats ==> r.keys == t.keys
    ensures k !in t.cats ==> r.keys == t.keys + [k]
  {
    if k in t.cats then Table(t.keys, t.cats[k := category])
    else Table(t.keys + [k], t.cats[k := category])
  }

  /** The table right after the window is built, before any device is added. */
  function MasterTable(): (t: Table)
    ensures WellFormed(t)
  {
    Table([MasterFans, MasterLights], map[MasterFans := MasterFanCategory, MasterLights := MasterLightCategory])
  }

  /**
   * `device_widgets` after construction: the two master entries, then one entry per fan
   * or light of the file, in file order; entries of any other category are not added.
   */
  function WidgetTable(devices: seq<Device>): (t: Table)
    ensures WellFormed(t)
  {
    if devices == [] then MasterTable()
    else
      var d := devices[|devices| - 1];
      var t := WidgetTable(devices[..|devices| - 1]);
      if IsDeviceCategory(d.category) then Insert(t, d.id, d.category) else t
  }

  /** Entry `k` of table `t` is one of the two master entries, or a fan or light the file lists with that category. */
  ghost predicate EntryFromFile(devices: seq<Device>, t: Table, k: string)
    requires k in t.cats
  {
    (k == MasterFans && t.cats[k] == MasterFanCategory) ||
    (k == MasterLights && t.cats[k] == MasterLightCategory) ||
    (IsDeviceCategory(t.cats[k]) && HasEntry(devices, k, t.cats[k]))
  }

  /** Every entry of the table is a master entry or comes from the file. */
  lemma {:induction false} WidgetTableEntries(devices: seq<Device>)
    ensures forall k :: k in WidgetTable(devices).cats ==> EntryFromFile(devices, WidgetTable(devices), k)
  {
    if devices != [] {
      var init := devices[..|devices| - 1];
      var d := devices[|devices| - 1];
      WidgetTableEntries(init);
      var t0 := WidgetTable(init);
      var t := WidgetTable(devices);
      forall k | k in t.cats ensures EntryFromFile(devices, t, k) {
        if IsDeviceCategory(d.category) && k == d.id {
          assert devices[|devices| - 1] == d;
        } else {
          assert k in t0.cats && t.cats[k] == t0.cats[k];
          assert EntryFromFile(init, t0, k);
          if IsDeviceCategory(t0.cats[k]) && HasEntry(init, k, t0.cats[k]) {
            var i :| 0 <= i < |init| && init[i].id == k && init[i].category == t0.cats[k];
            assert devices[i] == init[i];
          }
        }
      }
    }
  }

  /** Every fan or light of the file has an entry in the table, of a device category. */
  lemma {:induction false} WidgetTableHasEveryDevice(devices: seq<Device>, i: nat)
    requires i < |devices| && IsDeviceCategory(devices[i].category)
    ensures devices[i].id in WidgetTable(devices).cats
    ensures IsDeviceCategory(WidgetTable(devices).cats[devices[i].id])
  {
    var init := devices[..|devices| - 1];
    if i < |devices| - 1 {
      WidgetTableHasEveryDevice(init, i);
      assert init[i] == devices[i];
    }
  }

  /** Every fan entry of the table comes from the file, so its name can be looked up. */
  lemma FanEntryIsListed(devices: seq<Device>, k: string)
    requires k in WidgetTable(devices).cats && WidgetTable(devices).cats[k] == Fan
    ensures HasId(devices, k)
  {
    WidgetTableEntries(devices);
    assert EntryFromFile(devices, WidgetTable(devices), k);
  }

  /** The last fan or light entry of the file with an id decides that id's category in the table. */
  lemma {:induction false} WidgetTableLastEntryWins(devices: seq<Device>, i: nat)
    requires i < |devices| && IsDeviceCategory(devices[i].category)
    requires forall j :: i < j < |devices| && devices[j].id == devices[i].id ==> !IsDeviceCategory(devices[j].category)
    ensures devices[i].id in WidgetTable(devices).cats
    ensures WidgetTable(devices).cats[devices[i].id] == devices[i].category
  {
    var init := devices[..|devices| - 1];
    if i < |devices| - 1 {
      assert init[i] == devices[i];
      forall j | i < j < |init| && init[j].id == init[i].id ensures !IsDeviceCategory(init[j].category) {
        assert init[j] == devices[j];
      }
      WidgetTableLastEntryWins(init, i);
    }
  }

  /** A master entry stays in the table, with its master category, unless a file entry reuses its id. */
  lemma {:induction false} WidgetTableKeepsMaster(devices: seq<Device>, k: string)
    requires k == MasterFans || k == MasterLights
    requires forall i :: 0 <= i < |devices| ==> devices[i].id != k
    ensures k in WidgetTable(devices).cats
    ensures WidgetTable(devices).cats[k] == MasterTable().cats[k]
  {
    if devices != [] {
      var init := devices[..|devices| - 1];
      WidgetTableKeepsMaster(init, k);
      assert devices[|devices| - 1].id != k;
    }
  }

  // ---------------------------------------------------------------------------
  // Batch action lists

  /** `set_category_state`: one forced switch action per entry of the category, in table order. */
  function CategoryActions(keys: seq<string>, cats: map<string, string>, category: string, state: bool): seq<Action> {
    if keys == [] then []
    else
      var k := keys[|keys| - 1];
      CategoryActions(keys[..|keys| - 1], cats, category, state) +
        if k in cats && cats[k] == category then [Action(k, CommandSwitch(category), Bool(state), true)] else []
  }

  /** `set_all_state` as written: one forced switch action per entry of the table, master entries included. */
  function AllActions(keys: seq<string>, cats: map<string, string>, state: bool): seq<Action> {
    if keys == [] then []
    else
      var k := keys[|keys| - 1];
      AllActions(keys[..|keys| - 1], cats, state) +
        if k in cats then [Action(k, CommandSwitch(cats[k]), Bool(state), true)] else []
  }

  /** `set_all_state` as intended: one forced switch action per fan or light entry. */
  function DeviceActions(keys: seq<string>, cats: map<string, string>, state: bool): seq<Action> {
    if keys == [] then []
    else
      var k := keys[|keys| - 1];
      DeviceActions(keys[..|keys| - 1], cats, state) +
        if k in cats && IsDeviceCategory(cats[k]) then [Action(k, CommandSwitch(cats[k]), Bool(state), true)] else []
  }

  /**
   * `normalize_fan_speeds`: for each fan entry whose status read is non-empty and shows
   * "switch_fan" on, a forced "fan_speed" action with the normal speed of the fan's name.
   */
  function NormalizeActions(keys: seq<string>, cats: map<string, string>, devices: seq<Device>,
                            polled: map<string, DeviceStatus>): seq<Action> {
    if keys == [] then []
    else
      var k := keys[|keys| - 1];
      var status := Fetch(polled, k);
      NormalizeActions(keys[..|keys| - 1], cats, devices, polled) +
        if k in cats && cats[k] == Fan && status != map[] && SwitchValueOf(status, SwitchFan) && HasId(devices, k)
        then [Action(k, FanSpeed, Int(FanConfig.GetNormalSpeed(FirstName(devices, k))), true)]
        else []
  }

  /**
   * A category batch holds exactly one action per entry of that category, each a forced
   * command of the category's switch code with the requested state, and nothing else.
   */
  lemma {:induction false} CategoryActionsExact(keys: seq<string>, cats: map<string, string>, category: string, state: bool)
    requires Distinct(keys)
    ensures var acts := CategoryActions(keys, cats, category, state);
      (forall a :: a in acts ==>
         a == Action(a.devId, CommandSwitch(category), Bool(state), true) &&
         a.devId in keys && a.devId in cats && cats[a.devId] == category) &&
      (forall k :: k in keys && k in cats && cats[k] == category ==> Action(k, CommandSwitch(category), Bool(state), true) in acts) &&
      (forall i, j :: 0 <= i < j < |acts| ==> acts[i].devId != acts[j].devId)
  {
    if keys != [] {
      var init := keys[..|keys| - 1];
      var k := keys[|keys| - 1];
      assert Distinct(init);
      CategoryActionsExact(init, cats, category, state);
      assert k !in init;
      assert forall x :: x in keys <==> x in init || x == k;
    }
  }

  /** The batch as written holds one action per entry of the table, each with its entry's switch code. */
  lemma {:induction false} AllActionsExact(keys: seq<string>, cats: map<string, string>, state: bool)
    requires Distinct(keys)
    ensures var acts := AllActions(keys, cats, state);
      (forall a :: a in acts ==> a.devId in keys && a.devId in cats && a == Action(a.devId, CommandSwitch(cats[a.devId]), Bool(state), true)) &&
      (forall k :: k in keys && k in cats ==> Action(k, CommandSwitch(cats[k]), Bool(state), true) in acts) &&
      (forall i, j :: 0 <= i < j < |acts| ==> acts[i].devId != acts[j].devId)
  {
    if keys != [] {
      var init := keys[..|keys| - 1];
      var k := keys[|keys| - 1];
      assert Distinct(init);
      AllActionsExact(init, cats, state);
      assert k !in init;
      assert forall x :: x in keys <==> x in init || x == k;
    }
  }

  /**
   * As written, "turn everything on/off" also sends a "switch_1" command to the ids of
   * the two master pseudo-entries, whatever fans and lights the file lists.
   */
  lemma SetAllStateTargetsMasterEntries(devices: seq<Device>, state: bool)
    requires forall i :: 0 <= i < |devices| ==> devices[i].id != MasterFans && devices[i].id != MasterLights
    ensures var t := WidgetTable(devices);
      Action(MasterFans, SwitchLight, Bool(state), true) in AllActions(t.keys, t.cats, state) &&
      Action(MasterLights, SwitchLight, Bool(state), true) in AllActions(t.keys, t.cats, state)
  {
    var t := WidgetTable(devices);
    WidgetTableKeepsMaster(devices, MasterFans);
    WidgetTableKeepsMaster(devices, MasterLights);
    AllActionsExact(t.keys, t.cats, state);
  }

  /** The intended batch is exactly the fan batch and the light batch together. */
  lemma {:induction false} DeviceActionsAreBothCategories(keys: seq<string>, cats: map<string, string>, state: bool)
    ensures multiset(DeviceActions(keys, cats, state)) ==
            multiset(CategoryActions(keys, cats, Fan, state) + CategoryActions(keys, cats, Light, state))
  {
    if keys != [] {
      DeviceActionsAreBothCategories(keys[..|keys| - 1], cats, state);
    }
  }

  /** The intended batch holds one action per fan or light entry, each with its entry's switch code. */
  lemma {:induction false} DeviceActionsExact(keys: seq<string>, cats: map<string, string>, state: bool)
    requires Distinct(keys)
    ensures var acts := DeviceActions(keys, cats, state);
      (forall a :: a in acts ==>
         a.devId in keys && a.devId in cats && IsDeviceCategory(cats[a.devId]) &&
         a == Action(a.devId, CommandSwitch(cats[a.devId]), Bool(state), true)) &&
      (forall k :: k in keys && k in cats && IsDeviceCategory(cats[k]) ==> Action(k, CommandSwitch(cats[k]), Bool(state), true) in acts) &&
      (forall i, j :: 0 <= i < j < |acts| ==> acts[i].devId != acts[j].devId)
  {
    if keys != [] {
      var init := keys[..|keys| - 1];
      var k := keys[|keys| - 1];
      assert Distinct(init);
      DeviceActionsExact(init, cats, state);
      assert k !in init;
      assert forall x :: x in keys <==> x in init || x == k;
    }
  }

  /** The intended batch only targets devices listed in the file, and reaches every fan and light of it. */
  lemma DeviceActionsTargetTheFile(devices: seq<Device>, state: bool)
    ensures var t := WidgetTable(devices);
      (forall a :: a in DeviceActions(t.keys, t.cats, state) ==> HasId(devices, a.devId)) &&
      (forall i :: 0 <= i < |devices| && IsDeviceCategory(devices[i].category) ==>
         exists a :: a in DeviceActions(t.keys, t.cats, state) && a.devId == devices[i].id)
  {
    var t := WidgetTable(devices);
    var acts := DeviceActions(t.keys, t.cats, state);
    DeviceActionsExact(t.keys, t.cats, state);
    WidgetTableEntries(devices);
    forall a | a in acts ensures HasId(devices, a.devId) {
      assert EntryFromFile(devices, t, a.devId);
    }
    forall i | 0 <= i < |devices| && IsDeviceCategory(devices[i].category)
      ensures exists a :: a in acts && a.devId == devices[i].id
    {
      WidgetTableHasEveryDevice(devices, i);
      var k := devices[i].id;
      assert Action(k, CommandSwitch(t.cats[k]), Bool(state), true) in acts;
    }
  }

  /**
   * A normalize batch holds one forced "fan_speed" action per fan entry whose status is
   * non-empty and shows "switch_fan" on, with the normal speed of the first file name
   * carrying that id; fans that are off or could not be read get none.
   */
  lemma {:induction false} NormalizeActionsExact(keys: seq<string>, cats: map<string, string>, devices: seq<Device>,
                                                 polled: map<string, DeviceStatus>)
    requires Distinct(keys)
    requires forall k :: k in cats && cats[k] == Fan ==> HasId(devices, k)
    ensures var acts := NormalizeActions(keys, cats, devices, polled);
      (forall a :: a in acts ==>
         a.devId in keys && a.devId in cats && cats[a.devId] == Fan &&
         Fetch(polled, a.devId) != map[] && SwitchValueOf(Fetch(polled, a.devId), SwitchFan) &&
         a == Action(a.devId, FanSpeed, Int(FanConfig.GetNormalSpeed(FirstName(devices, a.devId))), true)) &&
      (forall k :: k in keys && k in cats && cats[k] == Fan && Fetch(polled, k) != map[] && SwitchValueOf(Fetch(polled, k), SwitchFan) ==>
         Action(k, FanSpeed, Int(FanConfig.GetNormalSpeed(FirstName(devices, k))), true) in acts) &&
      (forall i, j :: 0 <= i < j < |acts| ==> acts[i].devId != acts[j].devId)
  {
    if keys != [] {
      var init := keys[..|keys| - 1];
      var k := keys[|keys| - 1];
      assert Distinct(init);
      NormalizeActionsExact(init, cats, devices, polled);
      assert k !in init;
      assert forall x :: x in keys <==> x in init || x == k;
    }
  }

  /** Every normalize action sets one of the two normal speeds. */
  lemma NormalizeSpeedsAreNormal(keys: seq<string>, cats: map<string, string>, devices: seq<Device>,
                                 polled: map<string, DeviceStatus>)
    ensures forall a :: a in NormalizeActions(keys, cats, devices, polled) ==>
      a.cmd == FanSpeed && a.force && (a.value == Int(FanConfig.ExhaustSpeed) || a.value == Int(FanConfig.RegularSpeed))
  {
    if keys != [] {
      NormalizeSpeedsAreNormal(keys[..|keys| - 1], cats, devices, polled);
    }
  }

  // ---------------------------------------------------------------------------
  // Polled switch states

  /** The switch states of the fan entries among the polled ids, in poll order. */
  function FanStates(ids: seq<string>, cats: map<string, string>, polled: map<string, DeviceStatus>): seq<bool> {
    if ids == [] then []
    else
      var id := ids[|ids| - 1];
      FanStates(ids[..|ids| - 1], cats, polled) +
        if id in cats && cats[id] == Fan then [SwitchValue(cats[id], Fetch(polled, id))] else []
  }

  /** The switch states of every other entry among the polled ids, in poll order. */
  function LightStates(ids: seq<string>, cats: map<string, string>, polled: map<string, DeviceStatus>): seq<bool> {
    if ids == [] then []
    else
      var id := ids[|ids| - 1];
      LightStates(ids[..|ids| - 1], cats, polled) +
        if id in cats && cats[id] != Fan then [SwitchValue(cats[id], Fetch(polled, id))] else []
  }

  /** The switch states of all polled ids that have an entry in the table, in poll order. */
  function KnownStates(ids: seq<string>, cats: map<string, string>, polled: map<string, DeviceStatus>): seq<bool> {
    if ids == [] then []
    else
      var id := ids[|ids| - 1];
      KnownStates(ids[..|ids| - 1], cats, polled) +
        if id in cats then [SwitchValue(cats[id], Fetch(polled, id))] else []
  }

  /** The fan and light lists together are a reordering of the states of all known polled ids. */
  lemma {:induction false} PartitionIsPermutation(ids: seq<string>, cats: map<string, string>, polled: map<string, DeviceStatus>)
    ensures multiset(FanStates(ids, cats, polled) + LightStates(ids, cats, polled)) == multiset(KnownStates(ids, cats, polled))
  {
    if ids != [] {
      PartitionIsPermutation(ids[..|ids| - 1], cats, polled);
    }
  }

  /** The `last_state` map after the switch state of a device in `category` was read as `status`. */
  function Refreshed(last: map<string, bool>, devId: string, category: string, status: DeviceStatus): (r: map<string, bool>)
    ensures status == map[] ==> r == last
    ensures status != map[] ==> devId in r && r[devId] == SwitchValue(category, status)
    ensures forall k :: k != devId ==> (k in r <==> k in last) && (k in last ==> r[k] == last[k])
  {
    if status != map[] then last[devId := SwitchValue(category, status)] else last
  }

  /** `update_device_status` for each polled id that has an entry, in poll order. */
  function RefreshAll(last: map<string, bool>, ids: seq<string>, cats: map<string, string>,
                      polled: map<string, DeviceStatus>): map<string, bool> {
    if ids == [] then last
    else
      var id := ids[|ids| - 1];
      var m := RefreshAll(last, ids[..|ids| - 1], cats, polled);
      if id in cats then Refreshed(m, id, cats[id], Fetch(polled, id)) else m
  }

  /** The `last_state` entries after construction: each added fan or light read once, right after it was added. */
  function InitialLastState(devices: seq<Device>, polled: map<string, DeviceStatus>): map<string, bool> {
    if devices == [] then map[]
    else
      var d := devices[|devices| - 1];
      var m := InitialLastState(devices[..|devices| - 1], polled);
      if IsDeviceCategory(d.category) then Refreshed(m - {d.id}, d.id, d.category, Fetch(polled, d.id)) else m
  }

  /**
   * After a pass of `update_device_status` over the polled ids, an id with a table entry and
   * a non-empty read holds its switch value; every other id keeps what it had.
   */
  lemma {:induction false} RefreshAllReadsEachDevice(last: map<string, bool>, ids: seq<string>, cats: map<string, string>,
                                                     polled: map<string, DeviceStatus>, k: string)
    ensures var r := RefreshAll(last, ids, cats, polled);
            if k in ids && k in cats && Fetch(polled, k) != map[] then k in r && r[k] == SwitchValue(cats[k], Fetch(polled, k))
            else (k in r <==> k in last) && (k in last ==> r[k] == last[k])
  {
    if ids != [] {
      var init := ids[..|ids| - 1];
      RefreshAllReadsEachDevice(last, init, cats, polled, k);
      assert k in ids <==> k in init || k == ids[|ids| - 1] by {
        assert ids == init + [ids[|ids| - 1]];
      }
    }
  }

  /**
   * After construction, an id has a `last_state` exactly when the file lists it as a fan or
   * a light and its read is non-empty; the value is its switch as read under its table category.
   */
  lemma {:induction false} InitialLastStateReadsTable(devices: seq<Device>, polled: map<string, DeviceStatus>, k: string)
    ensures k in InitialLastState(devices, polled) <==>
              Fetch(polled, k) != map[] && (HasEntry(devices, k, Fan) || HasEntry(devices, k, Light))
    ensures k in InitialLastState(devices, polled) ==>
              k in WidgetTable(devices).cats &&
              InitialLastState(devices, polled)[k] == SwitchValue(WidgetTable(devices).cats[k], Fetch(polled, k))
  {
    if devices != [] {
      var init := devices[..|devices| - 1];
      var d := devices[|devices| - 1];
      InitialLastStateReadsTable(init, polled, k);
      forall c | c == Fan || c == Light
        ensures HasEntry(devices, k, c) <==> HasEntry(init, k, c) || (d.id == k && d.category == c)
      {
        if HasEntry(devices, k, c) {
          var i :| 0 <= i < |devices| && devices[i].id == k && devices[i].category == c;
          if i < |devices| - 1 { assert init[i] == devices[i]; }
        }
        if HasEntry(init, k, c) {
          var i :| 0 <= i < |init| && init[i].id == k && init[i].category == c;
          assert devices[i] == init[i];
        }
      }
    }
  }

  // ---------------------------------------------------------------------------
  // Master indicators

  /** A `last_state` lookup; an entry without one reads as off. */
  function LastOf(last: map<string, bool>, k: string): bool {
    k in last && last[k]
  }

  /** The "all on" indicator of a category: every entry of that category has `last_state` on. */
  function CategoryAllOn(keys: seq<string>, cats: map<string, string>, last: map<string, bool>, category: string): (on: bool)
    ensures on <==> forall i :: 0 <= i < |keys| && keys[i] in cats && cats[keys[i]] == category ==> LastOf(last, keys[i])
  {
    if keys == [] then true
    else
      var k := keys[|keys| - 1];
      CategoryAllOn(keys[..|keys| - 1], cats, last, category) && (k in cats && cats[k] == category ==> LastOf(last, k))
  }

  /** The overall indicator: every fan and light entry has `last_state` on. */
  function EveryDeviceOn(keys: seq<string>, cats: map<string, string>, last: map<string, bool>): (on: bool)
    ensures on <==> forall i :: 0 <= i < |keys| && keys[i] in cats && IsDeviceCategory(cats[keys[i]]) ==> LastOf(last, keys[i])
  {
    if keys == [] then true
    else
      var k := keys[|keys| - 1];
      EveryDeviceOn(keys[..|keys| - 1], cats, last) && (k in cats && IsDeviceCategory(cats[k]) ==> LastOf(last, k))
  }

  /** The overall indicator is on exactly when both category indicators are. */
  lemma {:induction false} EveryDeviceOnIsBothCategories(keys: seq<string>, cats: map<string, string>, last: map<string, bool>)
    ensures EveryDeviceOn(keys, cats, last) <==> CategoryAllOn(keys, cats, last, Fan) && CategoryAllOn(keys, cats, last, Light)
  {
    if keys != [] {
      EveryDeviceOnIsBothCategories(keys[..|keys| - 1], cats, last);
    }
  }

  /** What `_update_device_ui` shows: the device's own light, its category's indicator (if any) and the overall one. */
  datatype Indicators = Indicators(device: bool, fans: Option<bool>, lights: Option<bool>, master: bool)

  function IndicatorsFor(t: Table, last: map<string, bool>, devId: string): (ind: Indicators)
    requires devId in t.cats
    ensures ind.device == LastOf(last, devId)
    ensures ind.fans.Some? <==> t.cats[devId] == Fan
    ensures ind.lights.Some? <==> t.cats[devId] == Light
    ensures ind.fans.Some? ==> ind.fans.value == CategoryAllOn(t.keys, t.cats, last, Fan)
    ensures ind.lights.Some? ==> ind.lights.value == CategoryAllOn(t.keys, t.cats, last, Light)
    ensures ind.master == EveryDeviceOn(t.keys, t.cats, last)
  {
    var category := t.cats[devId];
    Indicators(
      LastOf(last, devId),
      if category == Fan then Some(CategoryAllOn(t.keys, t.cats, last, Fan)) else None,
      if category == Light then Some(CategoryAllOn(t.keys, t.cats, last, Light)) else None,
      EveryDeviceOn(t.keys, t.cats, last))
  }
}
