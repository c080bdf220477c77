/** The selection and label logic of `view_window`: which record the summary shows, how each
    dropdown entry is labelled, which entry is preselected, and which path each entry activates. */
module Views {
  import opened Wrappers
  import opened Records
  import opened Messages

  /** `Iterator::position`: the index of the first element satisfying `p`. */
  function Position<T>(s: seq<T>, p: T -> bool): (r: Option<nat>)
    ensures r.Some? ==> r.value < |s| && p(s[r.value]) && forall j :: 0 <= j < r.value ==> !p(s[j])
    ensures r.None? <==> forall j :: 0 <= j < |s| ==> !p(s[j])
  {
    if s == [] then None
    else if p(s[0]) then Some(0)
    else match Position(s[1..], p)
      case Some(i) => Some(i + 1)
      case None => None
  }

  /** `Iterator::find`: the first element satisfying `p`. */
  function Find<T>(s: seq<T>, p: T -> bool): (r: Option<T>)
    ensures r.Some? ==> exists i :: 0 <= i < |s| && s[i] == r.value && p(s[i]) && forall j :: 0 <= j < i ==> !p(s[j])
    ensures r.None? <==> forall j :: 0 <= j < |s| ==> !p(s[j])
  {
    if s == [] then None
    else if p(s[0]) then Some(s[0])
    else Find(s[1..], p)
  }

  /** The record the summary at the top of the popup describes: the first active one. The service
      should mark at most one record active, but nothing here relies on that. */
  function ActiveEnvironment(environments: seq<BootEnvironment>): (r: Option<BootEnvironment>)
    ensures r.Some? <==> exists i :: 0 <= i < |environments| && environments[i].active
    ensures r.Some? ==> r.value.active && exists i :: (0 <= i < |environments| && environments[i] == r.value
      && forall j :: 0 <= j < i ==> !environments[j].active)
  {
    Find(environments, (e: BootEnvironment) => e.active)
  }

  /** A dropdown entry (and the summary's title) shows "description (name)", or the bare name
      when there is no description. */
  function Label(e: BootEnvironment): (shown: string)
    ensures e.description.None? ==> shown == e.name
    ensures e.description.Some? ==> shown == e.description.value + " (" + e.name + ")"
    ensures shown == e.name <==> e.description.None?
  {
    match e.description
    case Some(desc) => desc + " (" + e.name + ")"
    case None => e.name
  }

  /** The label of every record, in list order. */
  function DropdownLabels(environments: seq<BootEnvironment>): (labels: seq<string>)
    ensures |labels| == |environments|
    ensures forall i :: 0 <= i < |labels| ==> labels[i] == Label(environments[i])
  {
    if environments == [] then [] else [Label(environments[0])] + DropdownLabels(environments[1..])
  }

  /** The path of every record, in list order. */
  function DropdownPaths(environments: seq<BootEnvironment>): (paths: seq<ObjectPath>)
    ensures |paths| == |environments|
    ensures forall i :: 0 <= i < |paths| ==> paths[i] == environments[i].path
  {
    if environments == [] then [] else [environments[0].path] + DropdownPaths(environments[1..])
  }

  /** The preselected reboot target: the first record booted once, else the first record booted
      next, else none. Temporary and permanent selections are not told apart. */
  function RebootTargetIndex(environments: seq<BootEnvironment>): (r: Option<nat>)
    ensures r.Some? ==> r.value < |environments|
    ensures (exists i :: 0 <= i < |environments| && environments[i].bootOnce) ==>
      r.Some? && environments[r.value].bootOnce && forall j :: 0 <= j < r.value ==> !environments[j].bootOnce
    ensures (forall i :: 0 <= i < |environments| ==> !environments[i].bootOnce) ==>
      && (r.Some? <==> exists i :: 0 <= i < |environments| && environments[i].nextBoot)
      && (r.Some? ==> environments[r.value].nextBoot && forall j :: 0 <= j < r.value ==> !environments[j].nextBoot)
  {
    match Position(environments, (e: BootEnvironment) => e.bootOnce)
    case Some(i) => Some(i)
    case None => Position(environments, (e: BootEnvironment) => e.nextBoot)
  }

  /** The "reboot into" dropdown: its labels, its preselected entry and the paths it activates. */
  datatype Dropdown = Dropdown(labels: seq<string>, selected: Option<nat>, paths: seq<ObjectPath>)

  /** The dropdown is shown only when there is at least one record. */
  function RebootDropdown(environments: seq<BootEnvironment>): (r: Option<Dropdown>)
    ensures r.Some? <==> environments != []
    ensures r.Some? ==> |r.value.labels| == |r.value.paths| == |environments|
    ensures r.Some? && r.value.selected.Some? ==> r.value.selected.value < |r.value.labels|
    ensures r.Some? ==>
      && r.value.labels == DropdownLabels(environments)
      && r.value.selected == RebootTargetIndex(environments)
      && r.value.paths == DropdownPaths(environments)
  {
    var labels := DropdownLabels(environments);
    if labels == [] then None
    else Some(Dropdown(labels, RebootTargetIndex(environments), DropdownPaths(environments)))
  }

  /** Choosing entry `idx` of the dropdown sends an activation request for that entry's path. */
  function OnSelect(d: Dropdown, idx: nat): (m: Message)
    requires idx < |d.paths|
    ensures m.ActivateEnvironment? && m.path == d.paths[idx]
  {
    ActivateEnvironment(d.paths[idx])
  }

  /** The dropdown is aligned with the list: entry `idx` shows record `idx` and selecting it
      activates record `idx`. */
  lemma SelectActivatesShownRecord(environments: seq<BootEnvironment>, idx: nat)
    requires idx < |environments|
    ensures RebootDropdown(environments).Some?
    ensures RebootDropdown(environments).value.labels[idx] == Label(environments[idx])
    ensures OnSelect(RebootDropdown(environments).value, idx) == ActivateEnvironment(environments[idx].path)
  {
  }

  /** Two worked examples: a record booted once wins over an earlier record booted next; with
      neither flag set, nothing is preselected. */
  lemma RebootTargetSamples(a: BootEnvironment, b: BootEnvironment)
    requires !a.bootOnce && a.nextBoot && b.bootOnce && !b.nextBoot
    ensures RebootTargetIndex([a, b]) == Some(1)
    ensures RebootTargetIndex([a.(nextBoot := false), b.(bootOnce := false)]) == None
  {
    var s := [a, b];
    assert s[1].bootOnce && !s[0].bootOnce;
    var r := RebootTargetIndex(s);
    assert r.Some? && r.value != 0;
  }
}
