/**
 * Audio device choice, shared by the menu-bar app and the command line:
 * the capture device picked by preference order, and the microphone
 * mixed in beside it. The device list and the default input index are
 * parameters; the sound library that produces them is not modelled.
 */
module Devices {
  import opened Wrappers
  import opened Text

  /** One entry of the device list: its name and its input channel count. */
  datatype Device = Device(name: string, maxInputChannels: int)

  /** Capture devices in order of preference; the first one that matches wins. */
  const DevicePreference: seq<string> := ["BlackHole 2ch", "ZoomAudioDevice", "Microsoft Teams"]

  predicate IsInput(d: Device) { d.maxInputChannels > 0 }

  /**
   * The keys of the `available` dictionary: the names of input-capable
   * devices, each once, in the order in which they first appear.
   */
  function InputNames(devices: seq<Device>): (names: seq<string>)
    decreases |devices|
  {
    if |devices| == 0 then []
    else
      var front := InputNames(devices[..|devices| - 1]);
      var d := devices[|devices| - 1];
      if IsInput(d) && d.name !in front then front + [d.name] else front
  }

  /** The available names are exactly the input devices' names, without repetition. */
  lemma {:induction false} InputNamesExactly(devices: seq<Device>)
    ensures forall n :: n in InputNames(devices) <==>
              exists i :: 0 <= i < |devices| && IsInput(devices[i]) && devices[i].name == n
    ensures forall i, j :: 0 <= i < j < |InputNames(devices)| ==> InputNames(devices)[i] != InputNames(devices)[j]
    decreases |devices|
  {
    if |devices| > 0 {
      var init := devices[..|devices| - 1];
      InputNamesExactly(init);
      forall n
        ensures n in InputNames(devices) <==>
                exists i :: 0 <= i < |devices| && IsInput(devices[i]) && devices[i].name == n
      {
        if n in InputNames(init) {
          var i :| 0 <= i < |init| && IsInput(init[i]) && init[i].name == n;
          assert devices[i] == init[i];
        }
        if exists i :: 0 <= i < |devices| && IsInput(devices[i]) && devices[i].name == n {
          var i :| 0 <= i < |devices| && IsInput(devices[i]) && devices[i].name == n;
          if i < |init| {
            assert init[i] == devices[i];
          }
        }
      }
    }
  }

  /** `pref.lower() in name.lower()`. */
  predicate Matches(pref: string, name: string)
  {
    Contains(Lower(name), Lower(pref))
  }

  /** `"full"` for a BlackHole device, which carries both sides of the call; `"partial"` otherwise. */
  function Quality(name: string): string
  {
    if Contains(Lower(name), "blackhole") then "full" else "partial"
  }

  /** The first name, in order, that `pref` matches. */
  function FirstMatch(pref: string, names: seq<string>): (r: Option<nat>)
    ensures r.Some? ==> r.value < |names| && Matches(pref, names[r.value])
    ensures r.Some? ==> forall j :: 0 <= j < r.value ==> !Matches(pref, names[j])
    ensures r.None? ==> forall j :: 0 <= j < |names| ==> !Matches(pref, names[j])
    decreases |names|
  {
    if |names| == 0 then None
    else if Matches(pref, names[0]) then Some(0)
    else match FirstMatch(pref, names[1..])
      case None => None
      case Some(k) => Some(k + 1)
  }

  /** The device chosen from `names`: the first match of the first preference that matches any. */
  function Best(prefs: seq<string>, names: seq<string>): (r: Option<string>)
    decreases |prefs|
  {
    if |prefs| == 0 then None
    else match FirstMatch(prefs[0], names)
      case Some(k) => Some(names[k])
      case None => Best(prefs[1..], names)
  }

  /** No preference matches any name. */
  predicate NoneMatch(prefs: seq<string>, names: seq<string>)
  {
    forall p, i :: 0 <= p < |prefs| && 0 <= i < |names| ==> !Matches(prefs[p], names[i])
  }

  /**
   * `names[i]` is the choice through preference `p`: no earlier
   * preference matches any name, and `names[i]` is the first name that
   * preference `p` matches.
   */
  predicate ChosenAt(prefs: seq<string>, names: seq<string>, p: int, i: int)
  {
    0 <= p < |prefs| && 0 <= i < |names| && NoneMatch(prefs[..p], names) && Matches(prefs[p], names[i]) &&
    forall j :: 0 <= j < i ==> !Matches(prefs[p], names[j])
  }

  lemma NoneMatchCons(prefs: seq<string>, names: seq<string>)
    requires |prefs| > 0
    ensures NoneMatch(prefs, names) <==> FirstMatch(prefs[0], names).None? && NoneMatch(prefs[1..], names)
  {
    if FirstMatch(prefs[0], names).None? && NoneMatch(prefs[1..], names) {
      forall p, i | 0 <= p < |prefs| && 0 <= i < |names| ensures !Matches(prefs[p], names[i]) {
        if p > 0 {
          assert prefs[p] == prefs[1..][p - 1];
        }
      }
    }
    if NoneMatch(prefs, names) {
      forall p, i | 0 <= p < |prefs[1..]| && 0 <= i < |names| ensures !Matches(prefs[1..][p], names[i]) {
        assert prefs[1..][p] == prefs[p + 1];
      }
    }
  }

  lemma ChosenShift(prefs: seq<string>, names: seq<string>, p: int, i: int)
    requires |prefs| > 0 && FirstMatch(prefs[0], names).None? && ChosenAt(prefs[1..], names, p, i)
    ensures ChosenAt(prefs, names, p + 1, i)
  {
    assert prefs[..p + 1][1..] == prefs[1..][..p];
    NoneMatchCons(prefs[..p + 1], names);
  }

  /**
   * The chosen device is an available name matched by some preference,
   * no earlier preference matches any name, and no earlier name matches
   * that preference; there is no choice exactly when nothing matches.
   */
  lemma {:induction false} BestDeviceChoice(prefs: seq<string>, names: seq<string>)
    ensures Best(prefs, names).None? <==> NoneMatch(prefs, names)
    ensures Best(prefs, names).Some? ==>
              exists p, i :: ChosenAt(prefs, names, p, i) && Best(prefs, names).value == names[i]
    decreases |prefs|
  {
    if |prefs| > 0 {
      NoneMatchCons(prefs, names);
      match FirstMatch(prefs[0], names)
      case Some(k) =>
        assert prefs[..0] == [];
        assert ChosenAt(prefs, names, 0, k);
      case None =>
        BestDeviceChoice(prefs[1..], names);
        if Best(prefs, names).Some? {
          var p, i :| ChosenAt(prefs[1..], names, p, i) && Best(prefs, names).value == names[i];
          ChosenShift(prefs, names, p, i);
        }
    }
  }

  /**
   * `find_best_device`: the input devices are gathered into a dictionary
   * keyed by name, then the preferences are tried in order against the
   * names in order. The quality is given exactly when a device is.
   */
  method FindBestDevice(devices: seq<Device>) returns (name: Option<string>, quality: Option<string>)
    ensures name == Best(DevicePreference, InputNames(devices))
    ensures name.None? ==> quality.None?
    ensures name.Some? ==> quality == Some(Quality(name.value))
  {
    var available: seq<string> := [];
    for k := 0 to |devices|
      invariant available == InputNames(devices[..k])
    {
      assert devices[..k + 1][..k] == devices[..k];
      if IsInput(devices[k]) && devices[k].name !in available {
        available := available + [devices[k].name];
      }
    }
    assert devices[..|devices|] == devices;
    for p := 0 to |DevicePreference|
      invariant Best(DevicePreference, available) == Best(DevicePreference[p..], available)
    {
      var pref := DevicePreference[p];
      assert DevicePreference[p..][1..] == DevicePreference[p + 1..];
      for i := 0 to |available|
        invariant forall j :: 0 <= j < i ==> !Matches(pref, available[j])
      {
        if Matches(pref, available[i]) {
          assert FirstMatch(pref, available) == Some(i);
          return Some(available[i]), Some(Quality(available[i]));
        }
      }
      assert FirstMatch(pref, available).None?;
    }
    return None, None;
  }

  /** A microphone worth mixing in: an input that is not a meeting app's virtual device. */
  predicate MicCandidate(d: Device)
  {
    IsInput(d) && !Contains(Lower(d.name), "blackhole") && !Contains(Lower(d.name), "zoom") &&
    !Contains(Lower(d.name), "teams")
  }

  /** The default input index names a device that is a microphone candidate. */
  predicate DefaultIsMic(devices: seq<Device>, defaultIndex: Option<int>)
  {
    defaultIndex.Some? && 0 <= defaultIndex.value < |devices| && MicCandidate(devices[defaultIndex.value])
  }

  /**
   * `find_mic_device`: the default input when it is a candidate;
   * otherwise the first candidate in the list, or none. A negative or
   * missing default index is skipped; the list covers any index the
   * sound library reports as the default.
   */
  method FindMicDevice(devices: seq<Device>, defaultIndex: Option<int>) returns (mic: Option<string>)
    requires defaultIndex.Some? && defaultIndex.value >= 0 ==> defaultIndex.value < |devices|
    ensures DefaultIsMic(devices, defaultIndex) ==> mic == Some(devices[defaultIndex.value].name)
    ensures !DefaultIsMic(devices, defaultIndex) && mic.None? ==>
              forall i :: 0 <= i < |devices| ==> !MicCandidate(devices[i])
    ensures !DefaultIsMic(devices, defaultIndex) && mic.Some? ==>
              exists k :: 0 <= k < |devices| && MicCandidate(devices[k]) && mic.value == devices[k].name &&
                forall j :: 0 <= j < k ==> !MicCandidate(devices[j])
  {
    if defaultIndex.Some? && defaultIndex.value >= 0 {
      var d := devices[defaultIndex.value];
      if MicCandidate(d) {
        return Some(d.name);
      }
    }
    for k := 0 to |devices|
      invariant forall j :: 0 <= j < k ==> !MicCandidate(devices[j])
    {
      if MicCandidate(devices[k]) {
        return Some(devices[k].name);
      }
    }
    return None;
  }
}
