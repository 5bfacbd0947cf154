/**
 * playback.go: the playback actions of the spotcon revision. Its helpers
 * setRepeat, getVolume and volumePlus, and its device-list loop, are the same
 * code as in spoticli.go (and, for the loop, spotifycnct.go), so the members
 * here model those as well.
 */
module Playback {
  import opened Wrappers
  import opened Decimal
  import opened Gateway

  /** The panic value of getVolume. */
  const NoActiveDevices: string := "Error: no devices are active, please begin playback first"

  /** setRepeat: the user's word is translated to the wire value; a word it does not know issues no call. */
  function SetRepeat(s: string): (calls: seq<Call>)
    ensures s == "off" ==> calls == [Repeat("off")]
    ensures s == "track" ==> calls == [Repeat("track")]
    ensures s == "playlist" ==> calls == [Repeat("context")]
    ensures s != "off" && s != "track" && s != "playlist" ==> calls == []
  {
    match s
    case "off" => [Repeat("off")]
    case "track" => [Repeat("track")]
    case "playlist" => [Repeat("context")]
    case _ => []
  }

  /** The user's word for a wire repeat state. */
  function RepeatWord(state: string): Option<string>
  {
    match state
    case "off" => Some("off")
    case "track" => Some("track")
    case "context" => Some("playlist")
    case _ => None
  }

  /** Every repeat call names a wire state, and the word that produced it can be read back from it. */
  lemma RepeatVocabulary(s: string)
    ensures |SetRepeat(s)| <= 1
    ensures forall call :: call in SetRepeat(s) ==> call.Repeat? && RepeatWord(call.state) == Some(s)
    ensures forall call :: call in SetRepeat(s) ==> call.state == "off" || call.state == "track" || call.state == "context"
  {
  }

  /** Device k is active and no device after it is. */
  predicate LastActive(d: seq<Device>, k: int)
  {
    0 <= k < |d| && d[k].active && forall j :: k < j < |d| ==> !d[j].active
  }

  predicate NoneActive(d: seq<Device>)
  {
    forall k :: 0 <= k < |d| ==> !d[k].active
  }

  /** The value of a after getVolume's loop: -1, overwritten by the volume of each active device in turn. */
  function ScanVolume(d: seq<Device>): (a: int)
    ensures NoneActive(d) ==> a == -1
    ensures forall k :: LastActive(d, k) ==> a == d[k].volume
    ensures a != -1 ==> exists k :: LastActive(d, k) && a == d[k].volume
    decreases |d|
  {
    if d == [] then -1
    else if d[|d| - 1].active then
      assert LastActive(d, |d| - 1);
      d[|d| - 1].volume
    else
      var init := d[..|d| - 1];
      assert forall k :: LastActive(d, k) ==> LastActive(init, k);
      assert forall k :: LastActive(init, k) ==> LastActive(d, k);
      ScanVolume(init)
  }

  /** getVolume: the volume of the last active device in list order, or the panic when none is active. */
  function ActiveVolume(d: seq<Device>): (r: Result<int>)
    ensures NoneActive(d) ==> r == Failure(NoActiveDevices)
    ensures forall k :: LastActive(d, k) && d[k].volume != -1 ==> r == Success(d[k].volume)
    ensures r.Success? ==> exists k :: LastActive(d, k) && r.value == d[k].volume
    ensures r.Failure? ==> r.error == NoActiveDevices
    // -1 is getVolume's "none found" sentinel, so a last active device reporting -1 also panics
    ensures forall k :: LastActive(d, k) && d[k].volume == -1 ==> r == Failure(NoActiveDevices)
    ensures r.Success? ==> r.value != -1
  {
    var a := ScanVolume(d);
    if a == -1 then Failure(NoActiveDevices) else Success(a)
  }

  /** getVolume, playback.go:97-111 (the same loop as spoticli.go:465-479). */
  method GetVolume(d: seq<Device>) returns (r: Result<int>)
    ensures r == ActiveVolume(d)
  {
    var a := -1;
    for i := 0 to |d|
      invariant a == ScanVolume(d[..i])
    {
      assert d[..i + 1][..i] == d[..i];
      if d[i].active {
        a := d[i].volume;
      }
    }
    assert d[..|d|] == d;
    if a == -1 {
      r := Failure(NoActiveDevices);
    } else {
      r := Success(a);
    }
  }

  /** What volumePlus(delta) does: the current volume moved by delta and held to [0, 100], or getVolume's panic. */
  function VolumeAdjust(d: seq<Device>, delta: int): (r: Reply)
    ensures ActiveVolume(d).Failure? ==> r == Reply([], Fail(NoActiveDevices))
    ensures ActiveVolume(d).Success? ==>
      var v := ActiveVolume(d).value;
      && r.outcome == Ok && |r.calls| == 1 && r.calls[0].Volume?
      && 0 <= r.calls[0].percent <= 100
      && (0 <= v + delta <= 100 ==> r.calls[0].percent == v + delta)
      && (v + delta > 100 ==> r.calls[0].percent == 100)
      && (v + delta < 0 ==> r.calls[0].percent == 0)
  {
    match ActiveVolume(d)
    case Failure(e) => Reply([], Fail(e))
    case Success(v) => Reply([Volume(if v + delta > 100 then 100 else if v + delta < 0 then 0 else v + delta)], Ok)
  }

  /** volumePlus, playback.go:113-123 (the same steps as spoticli.go:481-491). */
  method VolumePlus(d: seq<Device>, delta: int) returns (r: Reply)
    ensures r == VolumeAdjust(d, delta)
  {
    var vol := GetVolume(d);
    if vol.Failure? {
      return Reply([], Fail(vol.error));
    }
    var s := vol.value + delta;
    if s > 100 {
      s := 100;
    }
    if s < 0 {
      s := 0;
    }
    r := Reply([Volume(s)], Ok);
  }

  /** playAction: device 0 resumes; a number past the list is refused with help; otherwise playback moves to d[i-1]. */
  function PlayAction(device: int, d: seq<Device>, appName: string): (r: Reply)
    ensures device == 0 ==> r == Reply([Play], Ok)
    ensures device > |d| ==> r == Reply([], Usage("ERROR: Incorrect device ID,  " + IntToDecimal(device), appName))
    ensures 1 <= device <= |d| ==> r == Reply([Transfer(d[device - 1].id, true)], Ok)
    ensures device < 0 ==> r == Reply([], Fail(IndexOutOfRange))
  {
    if device == 0 then Reply([Play], Ok)
    else if device > |d| then Reply([], Usage("ERROR: Incorrect device ID,  " + IntToDecimal(device), appName))
    else if device < 1 then Reply([], Fail(IndexOutOfRange))
    else Reply([Transfer(d[device - 1].id, true)], Ok)
  }

  /** One line of the device list: "[k]=Name (Type)", with " ACTIVE" after it for an active device. */
  function DeviceLine(k: nat, v: Device): string
  {
    "[" + NatToDecimal(k) + "]=" + v.name + " (" + v.kind + ")" + (if v.active then " ACTIVE" else "")
  }

  predicate EndsWith(s: string, suffix: string)
  {
    |suffix| <= |s| && s[|s| - |suffix|..] == suffix
  }

  /** The longest prefix of s made of decimal digits. */
  function DigitPrefix(s: string): (p: string)
    ensures AllDigits(p) && |p| <= |s| && p == s[..|p|]
  {
    if s == [] || !IsDigit(s[0]) then [] else [s[0]] + DigitPrefix(s[1..])
  }

  /** The number in brackets at the head of a device-list line, when there is one. */
  function LineNumber(line: string): Option<nat>
  {
    if line == [] || line[0] != '[' then None
    else
      var digits := DigitPrefix(line[1..]);
      if digits != [] && 1 + |digits| < |line| && line[1 + |digits|] == ']' then Some(FromDigits(digits)) else None
  }

  lemma {:induction false} DigitPrefixOf(ds: string, rest: string)
    requires AllDigits(ds)
    requires rest != [] && !IsDigit(rest[0])
    ensures DigitPrefix(ds + rest) == ds
    decreases |ds|
  {
    if ds == [] {
      assert ds + rest == rest;
    } else {
      assert (ds + rest)[0] == ds[0] && (ds + rest)[1..] == ds[1..] + rest;
      DigitPrefixOf(ds[1..], rest);
      assert ds == [ds[0]] + ds[1..];
    }
  }

  /** The device number can be read back from its line, and the line ends in " ACTIVE" exactly for an active device. */
  lemma DeviceLineReadBack(k: nat, v: Device)
    ensures LineNumber(DeviceLine(k, v)) == Some(k)
    ensures EndsWith(DeviceLine(k, v), " ACTIVE") <==> v.active
  {
    LineNumberOf(k, v);
    ActiveMarkOf(k, v);
  }

  lemma LineNumberOf(k: nat, v: Device)
    ensures LineNumber(DeviceLine(k, v)) == Some(k)
  {
    var line := DeviceLine(k, v);
    var num := NatToDecimal(k);
    var tail := v.name + " (" + v.kind + ")" + (if v.active then " ACTIVE" else "");
    var rest := "]=" + tail;
    assert line == "[" + (num + rest);
    assert line[0] == '[' && line[1..] == num + rest;
    assert rest[0] == ']' && !IsDigit(rest[0]);
    DigitPrefixOf(num, rest);
    assert DigitPrefix(line[1..]) == num;
    assert line[1 + |num|] == ']';
  }

  lemma ActiveMarkOf(k: nat, v: Device)
    ensures EndsWith(DeviceLine(k, v), " ACTIVE") <==> v.active
  {
    var head := "[" + NatToDecimal(k) + "]=" + v.name + " (" + v.kind + ")";
    if v.active {
      assert DeviceLine(k, v) == head + " ACTIVE";
    } else {
      assert DeviceLine(k, v) == head;
      assert head[|head| - 1] == ')';
    }
  }

  /** What the device-list loop prints: one line per device, in list order, numbered from 1. */
  function DeviceListing(d: seq<Device>): (lines: seq<string>)
    ensures |lines| == |d|
    ensures forall k :: 0 <= k < |d| ==> lines[k] == DeviceLine(k + 1, d[k])
    decreases |d|
  {
    if d == [] then []
    else
      var init := d[..|d| - 1];
      assert forall k :: 0 <= k < |init| ==> init[k] == d[k];
      DeviceListing(init) + [DeviceLine(|d|, d[|d| - 1])]
  }

  /** The device-list loop of devicesAction, playback.go:170-177. */
  method ListDevices(d: seq<Device>) returns (lines: seq<string>)
    ensures lines == DeviceListing(d)
  {
    lines := [];
    for i := 0 to |d|
      invariant lines == DeviceListing(d[..i])
    {
      assert d[..i + 1][..i] == d[..i] && d[..i + 1][i] == d[i];
      lines := lines + [DeviceLine(i + 1, d[i])];
    }
    assert d[..|d|] == d;
  }

  /** optionsAction: help when arguments are given, otherwise the rendered shuffle and repeat state. */
  function OptionsAction(c: Context): (r: Reply)
    ensures r.calls == []
    ensures r.outcome == if Present(c) then Help(c.command) else Shown(PlaybackOptions)
  {
    Guarded(c, Reply([], Shown(PlaybackOptions)))
  }

  /** currentAction: help when arguments are given, otherwise the rendered current track. */
  function CurrentAction(c: Context): (r: Reply)
    ensures r.calls == []
    ensures r.outcome == if Present(c) then Help(c.command) else Shown(CurrentTrack)
  {
    Guarded(c, Reply([], Shown(CurrentTrack)))
  }

  /** nextAction: help and no call when arguments are given, otherwise one Next call. */
  function NextAction(c: Context): (r: Reply)
    ensures Present(c) ==> r == Reply([], Help(c.command))
    ensures !Present(c) ==> r == Reply([Next], Ok)
  {
    Guarded(c, Reply([Next], Ok))
  }

  /** prevAction: help and no call when arguments are given, otherwise one Previous call. */
  function PrevAction(c: Context): (r: Reply)
    ensures Present(c) ==> r == Reply([], Help(c.command))
    ensures !Present(c) ==> r == Reply([Previous], Ok)
  {
    Guarded(c, Reply([Previous], Ok))
  }

  /** pauseAction: help and no call when arguments are given, otherwise one Pause call. */
  function PauseAction(c: Context): (r: Reply)
    ensures Present(c) ==> r == Reply([], Help(c.command))
    ensures !Present(c) ==> r == Reply([Pause], Ok)
  {
    Guarded(c, Reply([Pause], Ok))
  }

  /** devicesAction: help when arguments are given, otherwise the device list, one numbered line per device. */
  function DevicesAction(c: Context, d: seq<Device>): (r: Reply)
    ensures r.calls == []
    ensures Present(c) ==> r.outcome == Help(c.command)
    ensures !Present(c) ==>
      && r.outcome.Printed? && |r.outcome.lines| == |d|
      && forall k :: 0 <= k < |d| ==> r.outcome.lines[k] == DeviceLine(k + 1, d[k])
  {
    Guarded(c, Reply([], Printed(DeviceListing(d))))
  }
}
