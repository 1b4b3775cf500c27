/**
 * The MuMuManager front end of E7A/emulator/mumu_emulator.py: two stores fed
 * by the manager tool's `info` and `app info` replies (emulator index -> info
 * object, and identifier -> app object), the index of the emulator further
 * operations address, and the checks each operation makes before it issues a
 * command.
 *
 * The tool is the oracle `manager`: it maps a command line to the object
 * `json.loads` decodes from the tool's output. Every operation returns the
 * commands it issued, in order, as `sent`.
 */
module MuMu {
  import opened Wrappers
  import opened Values
  import opened Strings

  /** An identifier as the caller passes it: an `int`, a `str`, or any other object. */
  datatype Identifier = Index(n: int) | Text(s: string) | Other

  /** The literal `"all"`, which selects every emulator. */
  const All: Identifier := Text("all")

  /** The MuMuManager command lines the class issues; `target` is the text after `-v`. */
  datatype Command =
    | Info(target: string)                      // info -v <target>
    | AppInfoAll(target: string)                // control -v <target> app info -i
    | AppInfoPkg(target: string, pkg: string)   // control -v <target> app info -pkg <pkg>
    | Launch(target: string)                    // control -v <target> launch
    | Shutdown(target: string)                  // control -v <target> shutdown
    | AppLaunch(target: string, pkg: string)    // control -v <target> app launch -pkg <pkg>
    | AppClose(target: string, pkg: string)     // control -v <target> app close -pkg <pkg>

  /** What an operation that changes no field returns: its result and the commands it issued. */
  datatype Reply<T> = Reply(result: Outcome<T>, sent: seq<Command>)

  /** What `get_emulator_info`/`get_app_info` return: the whole store, or one entry (`None` if absent). */
  datatype InfoQuery<K> = Whole(store: map<K, Value>) | Entry(entry: Option<Value>)

  /** Identifiers that `int(identifier)` converts: an int, or a string of digits. */
  predicate IndexLike(id: Identifier) {
    id.Index? || (id.Text? && IsDigits(id.s))
  }

  /** `int(identifier)`. */
  function IndexOf(id: Identifier): (r: int)
    requires IndexLike(id)
  {
    if id.Index? then id.n else DigitsValue(id.s)
  }

  /** `f"{identifier}"` in a command line. */
  function Format(id: Identifier): (r: string)
    requires !id.Other?
  {
    if id.Index? then IntToString(id.n) else id.s
  }

  /** `_is_valid_identifier` against the known emulator indices. */
  predicate IsValidIdentifier(id: Identifier, known: set<int>) {
    match id
    case Index(n) => n in known
    case Text(s) => s == "all" || (IsDigits(s) && DigitsValue(s) in known)
    case Other => false
  }

  /** `"all"` is accepted whatever is known, even when nothing is. */
  lemma AllIsAlwaysValid(known: set<int>)
    ensures IsValidIdentifier(All, known)
    ensures IsValidIdentifier(All, {})
  {
  }

  /** A valid identifier other than `"all"` names a known index, and `int()` of it succeeds. */
  lemma ValidSingleIsKnown(id: Identifier, known: set<int>)
    requires IsValidIdentifier(id, known) && id != All
    ensures IndexLike(id) && IndexOf(id) in known
  {
  }

  /**
   * An index and its decimal spelling are accepted alike; a digit string is
   * never coerced to an index that is not known.
   */
  lemma {:induction false} DigitTextMatchesIndex(n: nat, known: set<int>)
    ensures IsValidIdentifier(Text(NatToString(n)), known) <==> n in known
    ensures IsValidIdentifier(Index(n), known) <==> n in known
  {
    NatToStringRoundTrip(n);
    assert NatToString(n) != "all" by {
      assert IsDigit(NatToString(n)[0]);
    }
  }

  /** Leading zeros are accepted: `"007"` names index 7. */
  lemma LeadingZerosAccepted(known: set<int>)
    ensures IsValidIdentifier(Text("007"), known) <==> 7 in known
  {
    assert IsDigits("007");
    assert DigitsValue("007") == 7 by {
      assert "007"[..2] == "00";
      assert "00"[..1] == "0";
      assert "0"[..0] == "";
    }
  }

  /** Only ints and strings are identifiers; a string is `"all"` or digits. */
  lemma InvalidForms(id: Identifier, known: set<int>)
    requires id.Other? || (id.Text? && id != All && !IsDigits(id.s))
    ensures !IsValidIdentifier(id, known)
  {
  }

  /** `{int(key): value for key, value in items}`: `ValueError` on the first key `int` refuses. */
  function IntKeyed(items: seq<(string, Value)>): (r: Outcome<map<int, Value>>) {
    if |items| == 0 then Ok(map[])
    else
      match IntKeyed(items[..|items| - 1])
      case Raised(e) => Raised(e)
      case Ok(m) =>
        match ParseInt(items[|items| - 1].0)
        case None => Raised(ValueError)
        case Some(n) => Ok(m[n := items[|items| - 1].1])
  }

  /** The same comprehension over `output.items()`: a non-object output has no `items`. */
  function IntKeyedObject(output: Value): (r: Outcome<map<int, Value>>) {
    if output.Dict? then IntKeyed(output.items) else Raised(AttributeError)
  }

  /** No later entry of `items` converts to the same index as entry `i`. */
  ghost predicate LastForIndex(items: seq<(string, Value)>, i: int)
    requires 0 <= i < |items|
  {
    forall j :: i < j < |items| ==> ParseInt(items[j].0) != ParseInt(items[i].0)
  }

  /** The comprehension succeeds iff every key converts. */
  lemma {:induction false} IntKeyedSucceeds(items: seq<(string, Value)>)
    ensures IntKeyed(items).Ok? <==> forall i :: 0 <= i < |items| ==> ParseInt(items[i].0).Some?
  {
    if |items| > 0 {
      var init := items[..|items| - 1];
      IntKeyedSucceeds(init);
      assert forall i :: 0 <= i < |init| ==> init[i] == items[i];
    }
  }

  /** Its keys are exactly the converted keys: an index missing from the reply is dropped. */
  lemma {:induction false} IntKeyedKeys(items: seq<(string, Value)>)
    requires IntKeyed(items).Ok?
    ensures forall n :: n in IntKeyed(items).value <==>
      exists i :: 0 <= i < |items| && ParseInt(items[i].0) == Some(n)
  {
    if |items| > 0 {
      var init := items[..|items| - 1];
      IntKeyedKeys(init);
      assert forall i :: 0 <= i < |init| ==> init[i] == items[i];
    }
  }

  /** Each index holds the value of the last entry that converts to it. */
  lemma {:induction false} IntKeyedValues(items: seq<(string, Value)>)
    requires IntKeyed(items).Ok?
    ensures forall i, n :: 0 <= i < |items| && ParseInt(items[i].0) == Some(n) && LastForIndex(items, i) ==>
      n in IntKeyed(items).value && IntKeyed(items).value[n] == items[i].1
  {
    if |items| > 0 {
      var init := items[..|items| - 1];
      IntKeyedValues(init);
      var m := IntKeyed(init).value;
      var n' := ParseInt(items[|items| - 1].0).value;
      assert IntKeyed(items).value == m[n' := items[|items| - 1].1];
      forall i, n | 0 <= i < |init| && ParseInt(items[i].0) == Some(n) && LastForIndex(items, i)
        ensures n in IntKeyed(items).value && IntKeyed(items).value[n] == items[i].1
      {
        assert init[i] == items[i];
        assert LastForIndex(init, i);
        assert n != n';
      }
    }
  }

  /** The store `_update_app_info("all")` builds: int keys, as identifiers. */
  function IndexKeys(m: map<int, Value>): (r: map<Identifier, Value>)
    ensures forall n :: n in m <==> Index(n) in r
    ensures forall id :: id in r ==> id.Index? && r[id] == m[id.n]
  {
    map n | n in m :: Index(n) := m[n]
  }

  /** The app store after a single-emulator refresh, keyed as the refresh keys it: by the identifier as passed. */
  function SingleAppRefresh(store: map<Identifier, Value>, id: Identifier, output: Value): (r: map<Identifier, Value>)
    ensures id in r && r[id] == output
    ensures forall k :: k in store && k != id ==> k in r && r[k] == store[k]
    ensures r.Keys == store.Keys + {id}
  {
    store[id := output]
  }

  /**
   * A refresh through the digit string `"1"` files the reply under the string
   * key, where the lookup for `"1"`, which reads the int key 1, never finds it.
   */
  lemma TextRefreshUnseen()
    ensures IndexLike(Text("1")) && IndexOf(Text("1")) == 1
    ensures Text("1") in SingleAppRefresh(map[], Text("1"), Null)
    ensures Index(1) !in SingleAppRefresh(map[], Text("1"), Null)
  {
    assert IsDigits("1");
    assert DigitsValue("1") == DigitsValue("") * 10 + 1;
  }

  /** The evident intent: file a single refresh under `int(identifier)`, as the `"all"` refresh does. */
  function SingleAppRefreshIntended(store: map<Identifier, Value>, id: Identifier, output: Value): (r: map<Identifier, Value>)
    requires IndexLike(id)
    ensures Index(IndexOf(id)) in r && r[Index(IndexOf(id))] == output
    ensures forall k :: k in store && k != Index(IndexOf(id)) ==> k in r && r[k] == store[k]
    ensures r.Keys == store.Keys + {Index(IndexOf(id))}
  {
    store[Index(IndexOf(id)) := output]
  }

  /** With the intended keying, an index and its decimal spelling refresh the same entry. */
  lemma {:induction false} IntendedRefreshIgnoresSpelling(store: map<Identifier, Value>, n: nat, output: Value)
    ensures IndexLike(Text(NatToString(n)))
    ensures SingleAppRefreshIntended(store, Text(NatToString(n)), output) == SingleAppRefreshIntended(store, Index(n), output)
  {
    NatToStringRoundTrip(n);
  }

  /** `app_name2pkg_dict` over the entries of an app object, without the `errcode` check. */
  function PackagesByName(items: seq<(string, Value)>): (r: Outcome<map<Value, string>>) {
    if |items| == 0 then Ok(map[])
    else
      match PackagesByName(items[..|items| - 1])
      case Raised(e) => Raised(e)
      case Ok(m) =>
        var (key, value) := items[|items| - 1];
        if !value.Dict? then Ok(m)
        else
          match Subscript(value, "app_name")
          case Raised(e) => Raised(e)
          case Ok(name) => if name.Dict? then Raised(TypeError) else Ok(m[name := key])
  }

  /** `app_name2pkg_dict(app_info)`: the reverse lookup from app name to package. */
  function AppNameToPackage(appInfo: seq<(string, Value)>): (r: Outcome<map<Value, string>>)
    ensures HasKey(appInfo, "errcode") ==> r == Ok(map[])
  {
    if HasKey(appInfo, "errcode") then Ok(map[]) else PackagesByName(appInfo)
  }

  /** Entry `i` is an app object whose `app_name` is `name`. */
  ghost predicate NamesApp(items: seq<(string, Value)>, i: int, name: Value)
    requires 0 <= i < |items|
  {
    items[i].1.Dict? && Find(items[i].1.items, "app_name") == Some(name)
  }

  /** The reverse lookup fails only when an app object lacks `app_name` or that name is a dictionary; scalar entries (such as `active`) are skipped. */
  lemma {:induction false} PackagesByNameSucceeds(items: seq<(string, Value)>)
    ensures PackagesByName(items).Ok? <==>
      forall i :: 0 <= i < |items| && items[i].1.Dict? ==>
        exists name :: NamesApp(items, i, name) && !name.Dict?
  {
    if |items| > 0 {
      var init := items[..|items| - 1];
      PackagesByNameSucceeds(init);
      assert forall i :: 0 <= i < |init| ==> init[i] == items[i];
      var last := items[|items| - 1];
      if last.1.Dict? && Subscript(last.1, "app_name").Ok? {
        assert NamesApp(items, |items| - 1, Subscript(last.1, "app_name").value);
      }
    }
  }

  /** The names the reverse lookup knows are exactly the `app_name`s of the app objects. */
  lemma {:induction false} PackagesByNameKeys(items: seq<(string, Value)>)
    ensures PackagesByName(items).Ok? ==>
      forall name :: name in PackagesByName(items).value <==>
        exists i :: 0 <= i < |items| && NamesApp(items, i, name)
  {
    if |items| > 0 && PackagesByName(items).Ok? {
      var init := items[..|items| - 1];
      PackagesByNameKeys(init);
      assert forall i :: 0 <= i < |init| ==> init[i] == items[i];
      assert forall i, name :: 0 <= i < |init| ==> (NamesApp(init, i, name) <==> NamesApp(items, i, name));
      var last := items[|items| - 1];
      if last.1.Dict? {
        assert NamesApp(items, |items| - 1, Subscript(last.1, "app_name").value);
      }
    }
  }

  /** Each app name maps to the package key of the LAST app object carrying that name. */
  lemma {:induction false} PackagesByNameLastWins(items: seq<(string, Value)>)
    ensures PackagesByName(items).Ok? ==>
      forall i, name ::
        (0 <= i < |items| && NamesApp(items, i, name) &&
         forall j :: i < j < |items| ==> !NamesApp(items, j, name)) ==>
        name in PackagesByName(items).value && PackagesByName(items).value[name] == items[i].0
  {
    if |items| > 0 && PackagesByName(items).Ok? {
      var init := items[..|items| - 1];
      PackagesByNameLastWins(init);
      PackagesByNameKeys(init);
      assert forall i :: 0 <= i < |init| ==> init[i] == items[i];
      assert forall i, name :: 0 <= i < |init| ==> (NamesApp(init, i, name) <==> NamesApp(items, i, name));
      var last := items[|items| - 1];
      if last.1.Dict? {
        assert NamesApp(items, |items| - 1, Subscript(last.1, "app_name").value);
      }
    }
  }

  class MuMuEmulator {
    /** `_emulator_info`: emulator index -> the info object the tool reported for it. */
    var emulatorInfo: map<int, Value>
    /** `_app_info`: keyed as the refresh stored it (an int index, or the raw identifier). */
    var appInfo: map<Identifier, Value>
    /** `_target_emulator_index`. */
    var targetIndex: int

    /** The fields before `__init__` runs `update()` (see `Update`). */
    constructor ()
      ensures emulatorInfo == map[] && appInfo == map[] && targetIndex == 0
    {
      emulatorInfo := map[];
      appInfo := map[];
      targetIndex := 0;
    }

    /** `available_emulators`. */
    function AvailableEmulators(): (r: set<int>)
      reads this
    {
      emulatorInfo.Keys
    }

    /** The `target_emulator_index` setter. */
    method SetTargetEmulatorIndex(id: Identifier)
      modifies this`targetIndex
      ensures IsValidIdentifier(id, emulatorInfo.Keys) && id != All ==> targetIndex == IndexOf(id)
      ensures !(IsValidIdentifier(id, emulatorInfo.Keys) && id != All) ==> targetIndex == old(targetIndex)
      ensures targetIndex == old(targetIndex) || targetIndex in emulatorInfo
    {
      if IsValidIdentifier(id, emulatorInfo.Keys) {
        if id == All {
          // logged: the target can only be a single emulator
        } else {
          targetIndex := IndexOf(id);
        }
      }
    }

    /** `_update_emulator_info(identifier)`. */
    method UpdateEmulatorInfo(id: Identifier, manager: Command -> Value) returns (r: Outcome<()>, sent: seq<Command>)
      modifies this`emulatorInfo
      ensures !IsValidIdentifier(id, old(emulatorInfo).Keys) ==>
        r == Ok(()) && sent == [] && emulatorInfo == old(emulatorInfo)
      ensures id == All ==> (
        && sent == [Info("all")]
        && match IntKeyedObject(manager(Info("all")))
           case Ok(m) => r == Ok(()) && emulatorInfo == m
           case Raised(e) => r == Raised(e) && emulatorInfo == old(emulatorInfo))
      ensures IsValidIdentifier(id, old(emulatorInfo).Keys) && id != All ==>
        var target := IntToString(IndexOf(id));
        && sent == [Info(target)] && r == Ok(())
        && emulatorInfo == old(emulatorInfo)[IndexOf(id) := manager(Info(target))]
        && emulatorInfo.Keys == old(emulatorInfo).Keys
        && GetEmulatorInfo(id) == Entry(Some(manager(Info(target))))
    {
      if IsValidIdentifier(id, emulatorInfo.Keys) {
        if id == All {
          var c := Info("all");
          sent := [c];
          var output := manager(c);
          var converted := IntKeyedObject(output);
          if converted.Ok? {
            emulatorInfo := converted.value;
            r := Ok(());
          } else {
            r := Raised(converted.error);
          }
        } else {
          var index := IndexOf(id);
          var c := Info(IntToString(index));
          sent := [c];
          emulatorInfo := emulatorInfo[index := manager(c)];
          r := Ok(());
        }
      } else {
        // logged: invalid identifier
        r, sent := Ok(()), [];
      }
    }

    /** `_update_app_info(identifier)`: a single refresh stores under the identifier as given. */
    method UpdateAppInfo(id: Identifier, manager: Command -> Value) returns (r: Outcome<()>, sent: seq<Command>)
      modifies this`appInfo
      ensures !IsValidIdentifier(id, emulatorInfo.Keys) ==>
        r == Ok(()) && sent == [] && appInfo == old(appInfo)
      ensures id == All ==> (
        && sent == [AppInfoAll("all")]
        && match IntKeyedObject(manager(AppInfoAll("all")))
           case Ok(m) => r == Ok(()) && appInfo == IndexKeys(m)
           case Raised(e) => r == Raised(e) && appInfo == old(appInfo))
      ensures IsValidIdentifier(id, emulatorInfo.Keys) && id != All ==>
        && sent == [AppInfoAll(Format(id))] && r == Ok(())
        && appInfo == SingleAppRefresh(old(appInfo), id, manager(AppInfoAll(Format(id))))
      ensures id.Index? && IsValidIdentifier(id, emulatorInfo.Keys) ==>
        GetAppInfo(id) == Entry(Some(manager(AppInfoAll(Format(id)))))
      ensures id.Text? && id != All && IsValidIdentifier(id, emulatorInfo.Keys) ==>
        GetAppInfo(id) == old(GetAppInfo(id))
    {
      if IsValidIdentifier(id, emulatorInfo.Keys) {
        var c := AppInfoAll(Format(id));
        sent := [c];
        var output := manager(c);
        if id == All {
          var converted := IntKeyedObject(output);
          if converted.Ok? {
            appInfo := IndexKeys(converted.value);
            r := Ok(());
          } else {
            r := Raised(converted.error);
          }
        } else {
          appInfo := SingleAppRefresh(appInfo, id, output);
          r := Ok(());
        }
      } else {
        r, sent := Ok(()), [];
      }
    }

    /** `update()`: both stores refreshed wholesale, emulators first. */
    method Update(manager: Command -> Value) returns (r: Outcome<()>, sent: seq<Command>)
      modifies this`emulatorInfo, this`appInfo
      ensures match IntKeyedObject(manager(Info("all")))
        case Raised(e) =>
          r == Raised(e) && sent == [Info("all")] &&
          emulatorInfo == old(emulatorInfo) && appInfo == old(appInfo)
        case Ok(m) =>
          && emulatorInfo == m
          && sent == [Info("all"), AppInfoAll("all")]
          && match IntKeyedObject(manager(AppInfoAll("all")))
             case Ok(a) => r == Ok(()) && appInfo == IndexKeys(a)
             case Raised(e) => r == Raised(e) && appInfo == old(appInfo)
    {
      var s1, s2;
      r, s1 := UpdateEmulatorInfo(All, manager);
      if r.Raised? {
        sent := s1;
        return;
      }
      r, s2 := UpdateAppInfo(All, manager);
      sent := s1 + s2;
    }

    /** `get_emulator_info(identifier)`: an invalid identifier gives `None`, like an absent entry. */
    function GetEmulatorInfo(id: Identifier): (r: InfoQuery<int>)
      reads this
      ensures r.Whole? <==> id == All
      ensures r.Whole? ==> r.store == emulatorInfo
      ensures IsValidIdentifier(id, emulatorInfo.Keys) && id != All ==>
        r == Entry(Some(emulatorInfo[IndexOf(id)]))
      ensures !IsValidIdentifier(id, emulatorInfo.Keys) ==> r == Entry(None)
    {
      if IsValidIdentifier(id, emulatorInfo.Keys) then
        if id == All then Whole(emulatorInfo)
        else
          var n := IndexOf(id);
          Entry(if n in emulatorInfo then Some(emulatorInfo[n]) else None)
      else Entry(None)
    }

    /**
     * `get_app_info(identifier)`: validity is judged against the EMULATOR
     * store, and the entry is looked up under the int index.
     */
    function GetAppInfo(id: Identifier): (r: InfoQuery<Identifier>)
      reads this
      ensures r.Whole? <==> id == All
      ensures r.Whole? ==> r.store == appInfo
      ensures r.Entry? && r.entry.Some? ==>
        && IsValidIdentifier(id, emulatorInfo.Keys) && id != All
        && Index(IndexOf(id)) in appInfo && r.entry.value == appInfo[Index(IndexOf(id))]
      ensures IsValidIdentifier(id, emulatorInfo.Keys) && id != All && Index(IndexOf(id)) in appInfo ==>
        r == Entry(Some(appInfo[Index(IndexOf(id))]))
    {
      if IsValidIdentifier(id, emulatorInfo.Keys) then
        if id == All then Whole(appInfo)
        else
          var key := Index(IndexOf(id));
          Entry(if key in appInfo then Some(appInfo[key]) else None)
      else Entry(None)
    }

    /** `target_emulator_info`. */
    function TargetEmulatorInfo(): (r: Option<Value>)
      reads this
    {
      if targetIndex in emulatorInfo then Some(emulatorInfo[targetIndex]) else None
    }

    /**
     * `target_emulator_state`: the reported `player_state`, or `"stopped"` when
     * it is absent or null; calling `.get` on a missing entry raises.
     */
    function TargetEmulatorState(): (r: Outcome<Value>)
      reads this
      ensures r.Ok? <==> targetIndex in emulatorInfo && emulatorInfo[targetIndex].Dict?
      ensures r.Raised? ==> r.error == AttributeError
      ensures r.Ok? ==> r.value != Null
      ensures r.Ok? && Find(emulatorInfo[targetIndex].items, "player_state") in {None, Some(Null)} ==>
        r.value == Str("stopped")
      ensures r.Ok? && r.value != Str("stopped") ==>
        Find(emulatorInfo[targetIndex].items, "player_state") == Some(r.value)
      ensures r.Ok? && Find(emulatorInfo[targetIndex].items, "player_state") !in {None, Some(Null)} ==>
        Find(emulatorInfo[targetIndex].items, "player_state") == Some(r.value)
    {
      match TargetEmulatorInfo()
      case None => Raised(AttributeError)
      case Some(info) =>
        match Get(info, "player_state")
        case Raised(e) => Raised(e)
        case Ok(state) => if state.Some? && state.value != Null then Ok(state.value) else Ok(Str("stopped"))
    }

    /**
     * `target_emulator_adb_address`: `(adb_host_ip, adb_port)` from the current
     * info only while the state is `"start_finished"`, otherwise `(None, None)`.
     */
    function TargetEmulatorAdbAddress(): (r: Outcome<(Value, Value)>)
      reads this
      ensures TargetEmulatorState().Raised? ==> r == Raised(TargetEmulatorState().error)
      ensures TargetEmulatorState().Ok? && TargetEmulatorState().value != Str("start_finished") ==>
        r == Ok((Null, Null))
      ensures TargetEmulatorState() == Ok(Str("start_finished")) ==>
        var info := emulatorInfo[targetIndex];
        (r.Ok? <==> HasKey(info.items, "adb_host_ip") && HasKey(info.items, "adb_port")) &&
        (r.Ok? ==> r.value == (Find(info.items, "adb_host_ip").value, Find(info.items, "adb_port").value))
    {
      match TargetEmulatorState()
      case Raised(e) => Raised(e)
      case Ok(state) =>
        if state == Str("start_finished") then
          var info := emulatorInfo[targetIndex];
          match Subscript(info, "adb_host_ip")
          case Raised(e) => Raised(e)
          case Ok(ip) =>
            match Subscript(info, "adb_port")
            case Raised(e) => Raised(e)
            case Ok(port) => Ok((ip, port))
        else
          // logged: address not available
          Ok((Null, Null))
    }

    /** `target_emulator_apps_info`: the target's app entry when started, `{}` otherwise. */
    function TargetEmulatorAppsInfo(): (r: Outcome<Option<Value>>)
      reads this
      ensures TargetEmulatorState().Raised? ==> r == Raised(TargetEmulatorState().error)
      ensures TargetEmulatorState() == Ok(Str("start_finished")) ==>
        r == Ok(if Index(targetIndex) in appInfo then Some(appInfo[Index(targetIndex)]) else None)
      ensures TargetEmulatorState().Ok? && TargetEmulatorState().value != Str("start_finished") ==>
        r == Ok(Some(Dict([])))
    {
      match TargetEmulatorState()
      case Raised(e) => Raised(e)
      case Ok(state) =>
        if state == Str("start_finished") then
          var q := GetAppInfo(Index(targetIndex));
          Ok(if q.Entry? then q.entry else None)
        else Ok(Some(Dict([])))
    }

    /**
     * `get_app_state(identifier, pkg)`: `"wrong_identifier"` and `"not_ready"`
     * are answered without a command; readiness is that of the TARGET emulator.
     */
    function GetAppState(id: Identifier, pkg: string, manager: Command -> Value): (r: Reply<Value>)
      reads this
      ensures !IsValidIdentifier(id, emulatorInfo.Keys) ==> r == Reply(Ok(Str("wrong_identifier")), [])
      ensures (IsValidIdentifier(id, emulatorInfo.Keys) && TargetEmulatorState().Ok? &&
               TargetEmulatorState().value != Str("start_finished")) ==>
        r == Reply(Ok(Str("not_ready")), [])
      ensures IsValidIdentifier(id, emulatorInfo.Keys) && TargetEmulatorState().Raised? ==>
        r == Reply(Raised(TargetEmulatorState().error), [])
      ensures IsValidIdentifier(id, emulatorInfo.Keys) && TargetEmulatorState() == Ok(Str("start_finished")) ==>
        var reply := manager(AppInfoPkg(Format(id), pkg));
        && r.sent == [AppInfoPkg(Format(id), pkg)]
        && (r.result.Ok? <==> reply.Dict?)
        && (r.result.Raised? ==> r.result.error == AttributeError)
      ensures r.sent != [] ==>
        IsValidIdentifier(id, emulatorInfo.Keys) && TargetEmulatorState() == Ok(Str("start_finished")) &&
        r.sent == [AppInfoPkg(Format(id), pkg)]
      ensures r.sent != [] && r.result.Ok? ==>
        var reply := manager(AppInfoPkg(Format(id), pkg));
        reply.Dict? && r.result.value == (if HasKey(reply.items, "state") then Find(reply.items, "state").value else Null)
    {
      if IsValidIdentifier(id, emulatorInfo.Keys) then
        match TargetEmulatorState()
        case Raised(e) => Reply(Raised(e), [])
        case Ok(state) =>
          if state == Str("start_finished") then
            var c := AppInfoPkg(Format(id), pkg);
            match Get(manager(c), "state")
            case Raised(e) => Reply(Raised(e), [c])
            case Ok(s) => Reply(Ok(if s.Some? then s.value else Null), [c])
          else Reply(Ok(Str("not_ready")), [])
      else Reply(Ok(Str("wrong_identifier")), [])
    }

    /**
     * `launch_target_emulator`: reads `is_process_started` only to warn, then
     * ALWAYS sends `launch` (there is no idempotence check).
     */
    function LaunchTargetEmulator(manager: Command -> Value): (r: Reply<Value>)
      reads this
      ensures r.result.Ok? <==> TargetEmulatorInfo().Some? && Subscript(TargetEmulatorInfo().value, "is_process_started").Ok?
      ensures r.result.Ok? ==> r == Reply(Ok(manager(Launch(IntToString(targetIndex)))), [Launch(IntToString(targetIndex))])
      ensures r.result.Raised? ==> r.sent == []
    {
      var started := if TargetEmulatorInfo().None? then Raised(TypeError) else Subscript(TargetEmulatorInfo().value, "is_process_started");
      if started.Raised? then Reply(Raised(started.error), [])
      else
        var c := Launch(IntToString(targetIndex));
        Reply(Ok(manager(c)), [c])
    }

    /** `shutdown_target_emulator`: the symmetric case; `shutdown` is always sent. */
    function ShutdownTargetEmulator(manager: Command -> Value): (r: Reply<Value>)
      reads this
      ensures r.result.Ok? <==> TargetEmulatorInfo().Some? && Subscript(TargetEmulatorInfo().value, "is_process_started").Ok?
      ensures r.result.Ok? ==> r == Reply(Ok(manager(Shutdown(IntToString(targetIndex)))), [Shutdown(IntToString(targetIndex))])
      ensures r.result.Raised? ==> r.sent == []
    {
      var started := if TargetEmulatorInfo().None? then Raised(TypeError) else Subscript(TargetEmulatorInfo().value, "is_process_started");
      if started.Raised? then Reply(Raised(started.error), [])
      else
        var c := Shutdown(IntToString(targetIndex));
        Reply(Ok(manager(c)), [c])
    }

    /**
     * `launch_app_on_target_emulator(pkg)`: the launch command goes out only
     * when the queried state is `"stopped"`; every other state only logs.
     */
    function LaunchAppOnTargetEmulator(pkg: string, manager: Command -> Value): (r: Reply<Option<Value>>)
      reads this
      ensures var q := GetAppState(Index(targetIndex), pkg, manager);
        var launch := AppLaunch(IntToString(targetIndex), pkg);
        && (launch in r.sent <==> q.result == Ok(Str("stopped")))
        && r.sent == q.sent + (if q.result == Ok(Str("stopped")) then [launch] else [])
        && (q.result == Ok(Str("stopped")) ==> r.result == Ok(Some(manager(launch))))
        && (q.result.Ok? && q.result.value != Str("stopped") ==> r.result == Ok(None))
        && (q.result.Raised? ==> r.result == Raised(q.result.error))
      ensures TargetEmulatorState().Ok? && TargetEmulatorState().value != Str("start_finished") ==> r.sent == []
    {
      var q := GetAppState(Index(targetIndex), pkg, manager);
      match q.result
      case Raised(e) => Reply(Raised(e), q.sent)
      case Ok(state) =>
        if state == Str("stopped") then
          var c := AppLaunch(IntToString(targetIndex), pkg);
          Reply(Ok(Some(manager(c))), q.sent + [c])
        else
          // "not_installed", "running", "not_ready", "wrong_identifier" and unknown states are only logged
          Reply(Ok(None), q.sent)
    }

    /** `close_app_on_target_emulator(pkg)`: unconditional. */
    function CloseAppOnTargetEmulator(pkg: string, manager: Command -> Value): (r: Reply<Value>)
      reads this
      ensures r.sent == [AppClose(IntToString(targetIndex), pkg)]
      ensures r.result == Ok(manager(AppClose(IntToString(targetIndex), pkg)))
    {
      var c := AppClose(IntToString(targetIndex), pkg);
      Reply(Ok(manager(c)), [c])
    }
  }
}
