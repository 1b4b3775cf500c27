/**
 * The single-emulator controller of E7A/emulator/emulator.py: it addresses one
 * emulator by name or index, keeps the last `info` reply as `stateInfo` and the
 * last app listing as `appList`, gates every operation on the `error_code` the
 * tool reported, and detects a new screenshot file by polling a shared
 * directory.
 *
 * The tool is the oracle `manager` (command line -> return code and decoded
 * output); the directory, the clock and the file times are parameters of
 * `TakeScreenshot`. Every operation returns the commands it issued as `sent`.
 */
module Emulator {
  import opened Wrappers
  import opened Values
  import opened Strings

  /** The MuMuManager command lines the class issues; `target` is the text after `-v`. */
  datatype Command =
    | Info(target: string)                      // info -v <target>
    | AppInfoAll(target: string)                // control -v <target> app info -i
    | AppInfoPkg(target: string, pkg: string)   // control -v <target> app info -pkg <pkg>
    | AppLaunch(target: string, pkg: string)    // control -v <target> app launch -pkg <pkg>
    | Screenshot(target: string)                // control -v <target> tool func -n screenshot

  /** A finished process: its return code and its decoded standard output. */
  datatype Response = Response(returncode: int, stdout: Value)

  /** What an operation that changes no field returns: its result and the commands it issued. */
  datatype Reply<T> = Reply(result: Outcome<T>, sent: seq<Command>)

  /** `os.path.join(dir, name)`, kept as its two parts. */
  datatype Path = Path(dir: string, name: string)

  /** How `take_screenshot` ended (the source returns `None` in every case and logs which). */
  datatype ScreenshotOutcome =
    | EmulatorError                                       // error_code != 0: nothing listed, nothing sent
    | CaptureFailed                                       // the capture command returned non-zero
    | NotFound                                            // no qualifying file before the deadline, or it vanished
    | CopyFailed                                          // copyfile raised FileNotFoundError
    | Saved(source: Path, target: Path, deleteScheduled: bool)

  const UninitializedList: Value := Dict([("App list not initialized", Null)])
  const UpdateFailedList: Value := Dict([("Apps info update failed.", Null)])
  const NotReadyList: Value := Dict([("The emulator is not ready", Null)])

  /** `self.identifier`: the name when one is given, otherwise `str(vm_index)`. */
  function ManagerIdentifier(vmIndex: int, vmName: Option<string>): (r: string)
    ensures vmName.Some? ==> r == vmName.value
    ensures vmName.None? ==> ParseInt(r) == Some(vmIndex)
  {
    if vmName.None? then
      ParseIntToString(vmIndex);
      IntToString(vmIndex)
    else vmName.value
  }

  /** Python's `v != 0` (`False == 0` holds in Python). */
  predicate NonZero(v: Value) {
    match v
    case Int(i) => i != 0
    case Bool(b) => b
    case _ => true
  }

  /** `state_info["error_code"] != 0`. */
  function ErrorCode(stateInfo: Value): (r: Outcome<bool>)
    ensures r.Ok? <==> stateInfo.Dict? && HasKey(stateInfo.items, "error_code")
    ensures r.Ok? ==> r.value == NonZero(Find(stateInfo.items, "error_code").value)
    ensures stateInfo.Dict? && !HasKey(stateInfo.items, "error_code") ==> r == Raised(KeyError("error_code"))
    ensures !stateInfo.Dict? ==> r == Raised(TypeError)
  {
    match Subscript(stateInfo, "error_code")
    case Raised(e) => Raised(e)
    case Ok(code) => Ok(NonZero(code))
  }

  /** The error log line reads `errcode` then `errmsg`; its result is the `errcode`. */
  function ErrorEnvelope(output: Value): (r: Outcome<Value>)
    ensures r.Ok? <==> output.Dict? && HasKey(output.items, "errcode") && HasKey(output.items, "errmsg")
    ensures r.Ok? ==> Find(output.items, "errcode") == Some(r.value)
  {
    match Subscript(output, "errcode")
    case Raised(e) => Raised(e)
    case Ok(code) =>
      match Subscript(output, "errmsg")
      case Raised(e) => Raised(e)
      case Ok(_) => Ok(code)
  }

  /**
   * What `update_player_state` leaves in `state_info` and whether it raises:
   * the decoded reply, with `error_code` set to the reply's `errcode` when the
   * command failed.
   */
  function PlayerState(p: Response): (r: (Outcome<()>, Value))
    ensures p.returncode == 0 ==> r == (Ok(()), p.stdout)
    ensures p.returncode != 0 && r.0.Ok? ==>
      r.1.Dict? && ErrorEnvelope(p.stdout).Ok? && ErrorCode(r.1) == Ok(NonZero(ErrorEnvelope(p.stdout).value))
    ensures p.returncode != 0 ==> (r.0.Ok? <==> ErrorEnvelope(p.stdout).Ok?)
    ensures p.returncode != 0 && r.0.Ok? ==>
      && r.1.Dict? && ErrorEnvelope(p.stdout).Ok?
      && Find(r.1.items, "error_code") == Some(ErrorEnvelope(p.stdout).value)
      && forall k :: k != "error_code" ==> Find(r.1.items, k) == Find(p.stdout.items, k)
    ensures r.0.Raised? ==> r.1 == p.stdout
  {
    if p.returncode == 0 then (Ok(()), p.stdout)
    else
      match ErrorEnvelope(p.stdout)
      case Raised(e) => (Raised(e), p.stdout)
      case Ok(code) => (Ok(()), Dict(Put(p.stdout.items, "error_code", code)))
  }

  /** What a successful `app info -i` query leaves in `app_list`, or the exception its error log raises. */
  function AppListFrom(q: Response): (r: Outcome<Value>)
    ensures q.returncode == 0 ==> r == Ok(q.stdout)
    ensures q.returncode != 0 ==> (r.Ok? <==> ErrorEnvelope(q.stdout).Ok?)
    ensures q.returncode != 0 && r.Ok? ==> r.value == NotReadyList
  {
    if q.returncode != 0 then
      match ErrorEnvelope(q.stdout)
      case Raised(e) => Raised(e)
      case Ok(_) => Ok(NotReadyList)
    else Ok(q.stdout)
  }

  /** The effect of `update_installed_apps`: new status, `state_info`, `app_list` and commands. */
  datatype AppsRefresh = AppsRefresh(status: Outcome<()>, stateInfo: Value, appList: Value, sent: seq<Command>)

  /**
   * `update_installed_apps`: a failed state refresh leaves `app_list` as it was;
   * a non-zero `error_code` gives the "update failed" list without asking for
   * apps; a failed app query gives the "not ready" list.
   */
  function RefreshApps(identifier: string, appList: Value, manager: Command -> Response): (r: AppsRefresh)
    ensures |r.sent| >= 1 && r.sent[0] == Info(identifier)
    ensures r.stateInfo == PlayerState(manager(Info(identifier))).1
    ensures r.status.Raised? ==> r.appList == appList
    ensures PlayerState(manager(Info(identifier))).0.Raised? ==> r.status.Raised? && r.appList == appList && |r.sent| == 1
    ensures PlayerState(manager(Info(identifier))).0.Ok? && ErrorCode(r.stateInfo).Raised? ==>
      r == AppsRefresh(Raised(ErrorCode(r.stateInfo).error), r.stateInfo, appList, [Info(identifier)])
    ensures PlayerState(manager(Info(identifier))).0.Ok? && ErrorCode(r.stateInfo) == Ok(true) ==>
      r == AppsRefresh(Ok(()), r.stateInfo, UpdateFailedList, [Info(identifier)])
    ensures r.sent == [Info(identifier), AppInfoAll(identifier)] <==>
      PlayerState(manager(Info(identifier))).0.Ok? && ErrorCode(r.stateInfo) == Ok(false)
    ensures |r.sent| == 2 ==>
      var listed := AppListFrom(manager(AppInfoAll(identifier)));
      (listed.Ok? ==> r.status == Ok(()) && r.appList == listed.value) &&
      (listed.Raised? ==> r.status == Raised(listed.error) && r.appList == appList)
  {
    var (updated, state) := PlayerState(manager(Info(identifier)));
    if updated.Raised? then AppsRefresh(updated, state, appList, [Info(identifier)])
    else
      match ErrorCode(state)
      case Raised(e) => AppsRefresh(Raised(e), state, appList, [Info(identifier)])
      case Ok(failed) =>
        if failed then AppsRefresh(Ok(()), state, UpdateFailedList, [Info(identifier)])
        else
          var c := AppInfoAll(identifier);
          match AppListFrom(manager(c))
          case Raised(e) => AppsRefresh(Raised(e), state, appList, [Info(identifier), c])
          case Ok(list) => AppsRefresh(Ok(()), state, list, [Info(identifier), c])
  }

  /** A file of the current listing that was not in the snapshot and is not still being written. */
  function Candidates(current: set<string>, initial: set<string>): (r: set<string>) {
    set f | f in current && f !in initial && !Contains(f, ".pending")
  }

  /**
   * The file `take_screenshot` settles on: a candidate of the first listing
   * that has any, with the latest modification time among that listing's candidates.
   */
  ghost predicate ChosenScreenshot(f: string, initial: set<string>, listings: seq<set<string>>, mtime: string -> int) {
    exists k :: 0 <= k < |listings| &&
      (forall j :: 0 <= j < k ==> Candidates(listings[j], initial) == {}) &&
      f in Candidates(listings[k], initial) &&
      forall g :: g in Candidates(listings[k], initial) ==> mtime(g) <= mtime(f)
  }

  /** `max(files, key=os.path.getmtime)`: a file with the latest modification time. */
  method Newest(files: set<string>, mtime: string -> int) returns (newest: string)
    requires files != {}
    ensures newest in files
    ensures forall f :: f in files ==> mtime(f) <= mtime(newest)
  {
    newest :| newest in files;
    var rest := files - {newest};
    while rest != {}
      invariant rest <= files && newest in files
      invariant forall f :: f in files - rest ==> mtime(f) <= mtime(newest)
      decreases rest
    {
      var f :| f in rest;
      if mtime(f) > mtime(newest) {
        newest := f;
      }
      rest := rest - {f};
    }
  }

  /**
   * The polling loop of `take_screenshot`. `listings[k]` is what `os.listdir`
   * returns on the k-th pass; there are as many passes as deadline checks that
   * succeed. It stops at the first pass with a candidate; `rounds` is that
   * pass, or the number of passes when none had one.
   */
  method PollForScreenshot(initial: set<string>, listings: seq<set<string>>, mtime: string -> int)
    returns (found: Option<string>, rounds: nat)
    ensures rounds <= |listings|
    ensures forall k :: 0 <= k < rounds ==> Candidates(listings[k], initial) == {}
    ensures found.None? ==> rounds == |listings|
    ensures found.Some? ==>
      && rounds < |listings|
      && found.value in Candidates(listings[rounds], initial)
      && forall g :: g in Candidates(listings[rounds], initial) ==> mtime(g) <= mtime(found.value)
  {
    found, rounds := None, 0;
    while rounds < |listings|
      invariant rounds <= |listings|
      invariant forall k :: 0 <= k < rounds ==> Candidates(listings[k], initial) == {}
    {
      var newFiles := listings[rounds] - initial;
      if newFiles != {} {
        var valid := set f | f in newFiles && !Contains(f, ".pending");
        assert valid == Candidates(listings[rounds], initial);
        if valid != {} {
          var f := Newest(valid, mtime);
          found := Some(f);
          return;
        }
      }
      assert Candidates(listings[rounds], initial) == {} by {
        forall f | f in Candidates(listings[rounds], initial) ensures f in newFiles { }
      }
      rounds := rounds + 1;
    }
  }

  /** The copy destination: the save directory when moving, otherwise the shared directory itself. */
  function Destination(moveScreenshot: bool, fileName: string, saveDir: string, sharePath: string): (p: Path)
    ensures p.name == fileName
    ensures p.dir == if moveScreenshot then saveDir else sharePath
  {
    if moveScreenshot then Path(saveDir, fileName) else Path(sharePath, fileName)
  }

  /** `adb_error(process)`: true iff the return code is non-zero; the error log reads `errcode` and `errmsg`. */
  function AdbError(p: Response): (r: Outcome<bool>)
    ensures p.returncode == 0 ==> r == Ok(false)
    ensures r.Ok? ==> (r.value <==> p.returncode != 0)
    ensures r.Raised? ==> p.returncode != 0 && ErrorEnvelope(p.stdout).Raised?
    ensures p.returncode != 0 && ErrorEnvelope(p.stdout).Raised? ==> r == Raised(ErrorEnvelope(p.stdout).error)
  {
    if p.returncode != 0 then
      match ErrorEnvelope(p.stdout)
      case Raised(e) => Raised(e)
      case Ok(_) => Ok(true)
    else Ok(false)
  }

  class MuMuEmulator {
    /** `self.index`: `str(vm_index)`. */
    const index: string
    /** `self.name`. */
    const name: Option<string>
    /** `self.identifier`: what `-v` receives. */
    const identifier: string
    /** `self.app_list`. */
    var appList: Value
    /** `self.state_info`. */
    var stateInfo: Value

    /** `__init__` up to its closing `update_player_state()` call (see `UpdatePlayerState`). */
    constructor (vmIndex: int, vmName: Option<string>)
      ensures index == IntToString(vmIndex) && name == vmName
      ensures identifier == ManagerIdentifier(vmIndex, vmName)
      ensures appList == UninitializedList && stateInfo == Dict([])
    {
      index := IntToString(vmIndex);
      name := vmName;
      identifier := ManagerIdentifier(vmIndex, vmName);
      appList := UninitializedList;
      stateInfo := Dict([]);
    }

    /** `update_player_state`: `state_info` becomes the `info` reply, even when the error log then raises. */
    method UpdatePlayerState(manager: Command -> Response) returns (r: Outcome<Response>, sent: seq<Command>)
      modifies this`stateInfo
      ensures sent == [Info(identifier)]
      ensures stateInfo == PlayerState(manager(Info(identifier))).1
      ensures r == match PlayerState(manager(Info(identifier))).0
        case Ok(_) => Ok(manager(Info(identifier)))
        case Raised(e) => Raised(e)
    {
      var c := Info(identifier);
      sent := [c];
      var p := manager(c);
      stateInfo := p.stdout;
      if p.returncode != 0 {
        var code := ErrorEnvelope(stateInfo);
        if code.Raised? {
          r := Raised(code.error);
          return;
        }
        stateInfo := Dict(Put(stateInfo.items, "error_code", code.value));
      }
      r := Ok(p);
    }

    /** `update_installed_apps`. */
    method UpdateInstalledApps(manager: Command -> Response) returns (r: Outcome<()>, sent: seq<Command>)
      modifies this`stateInfo, this`appList
      ensures AppsRefresh(r, stateInfo, appList, sent) == RefreshApps(identifier, old(appList), manager)
    {
      var updated;
      updated, sent := UpdatePlayerState(manager);
      if updated.Raised? {
        r := Raised(updated.error);
        return;
      }
      var failed := ErrorCode(stateInfo);
      if failed.Raised? {
        r := Raised(failed.error);
        return;
      }
      if failed.value {
        // logged: the emulator index or name may not exist
        appList := UpdateFailedList;
        r := Ok(());
        return;
      }
      var c := AppInfoAll(identifier);
      sent := sent + [c];
      var listed := AppListFrom(manager(c));
      if listed.Raised? {
        r := Raised(listed.error);
        return;
      }
      appList := listed.value;
      r := Ok(());
    }

    /**
     * `get_app_state(pkg)`: `"error"` without a command when `error_code` is
     * non-zero, `"error"` when the query fails, else the reply's `state`.
     */
    function GetAppState(pkg: string, manager: Command -> Response): (r: Reply<Value>)
      reads this
      ensures ErrorCode(stateInfo) == Ok(true) ==> r == Reply(Ok(Str("error")), [])
      ensures ErrorCode(stateInfo).Raised? ==> r.sent == [] && r.result.Raised?
      ensures ErrorCode(stateInfo) == Ok(false) ==> r.sent == [AppInfoPkg(identifier, pkg)]
      ensures ErrorCode(stateInfo) == Ok(false) ==>
        var p := manager(AppInfoPkg(identifier, pkg));
        (p.returncode != 0 && ErrorEnvelope(p.stdout).Ok? ==> r.result == Ok(Str("error"))) &&
        (p.returncode != 0 && ErrorEnvelope(p.stdout).Raised? ==> r.result == Raised(ErrorEnvelope(p.stdout).error)) &&
        (p.returncode == 0 ==> r.result == Subscript(p.stdout, "state"))
    {
      match ErrorCode(stateInfo)
      case Raised(e) => Reply(Raised(e), [])
      case Ok(failed) =>
        if failed then Reply(Ok(Str("error")), [])
        else
          var c := AppInfoPkg(identifier, pkg);
          var p := manager(c);
          if p.returncode != 0 then
            match ErrorEnvelope(p.stdout)
            case Raised(e) => Reply(Raised(e), [c])
            case Ok(_) => Reply(Ok(Str("error")), [c])
          else Reply(Subscript(p.stdout, "state"), [c])
    }

    /** The app name the launch log line shows: `app_list.get(pkg, {"app_name": "inexistence"})["app_name"]`. */
    function AppDisplayName(pkg: string): (r: Outcome<Value>)
      reads this
    {
      match Get(appList, pkg)
      case Raised(e) => Raised(e)
      case Ok(entry) => Subscript(if entry.Some? then entry.value else Dict([("app_name", Str("inexistence"))]), "app_name")
    }

    /**
     * `launch_app(pkg)`: refresh the apps, query the state, and send
     * `app launch` only for `"stopped"`; `"running"`, `"not_installed"` and
     * `"error"` send nothing.
     */
    method LaunchApp(pkg: string, manager: Command -> Response) returns (r: Outcome<()>, sent: seq<Command>)
      modifies this`stateInfo, this`appList
      ensures var u := RefreshApps(identifier, old(appList), manager);
        stateInfo == u.stateInfo && appList == u.appList && |sent| >= |u.sent| && sent[..|u.sent|] == u.sent
      ensures AppLaunch(identifier, pkg) in sent <==>
        && RefreshApps(identifier, old(appList), manager).status.Ok?
        && GetAppState(pkg, manager).result == Ok(Str("stopped"))
        && AppDisplayName(pkg).Ok?
      ensures var u := RefreshApps(identifier, old(appList), manager);
        var q := GetAppState(pkg, manager);
        r.Raised? <==>
          || u.status.Raised?
          || (u.status.Ok? && q.result.Raised?)
          || (u.status.Ok? && q.result.Ok? && AppDisplayName(pkg).Raised?)
      ensures var u := RefreshApps(identifier, old(appList), manager);
        u.status.Raised? ==> r == u.status && sent == u.sent
      ensures var u := RefreshApps(identifier, old(appList), manager);
        var q := GetAppState(pkg, manager);
        u.status.Ok? ==>
          && (q.result.Raised? ==> r == Raised(q.result.error))
          && (q.result.Ok? && AppDisplayName(pkg).Raised? ==> r == Raised(AppDisplayName(pkg).error))
          && sent == u.sent + q.sent +
            (if q.result == Ok(Str("stopped")) && AppDisplayName(pkg).Ok? then [AppLaunch(identifier, pkg)] else [])
      ensures (
        && RefreshApps(identifier, old(appList), manager).status.Ok?
        && GetAppState(pkg, manager).result.Ok?
        && GetAppState(pkg, manager).result.value in {Str("running"), Str("not_installed"), Str("error")}
        ) ==> sent == RefreshApps(identifier, old(appList), manager).sent + GetAppState(pkg, manager).sent
    {
      var refreshed;
      refreshed, sent := UpdateInstalledApps(manager);
      if refreshed.Raised? {
        r := refreshed;
        return;
      }
      var q := GetAppState(pkg, manager);
      sent := sent + q.sent;
      if q.result.Raised? {
        r := Raised(q.result.error);
        return;
      }
      var appName := AppDisplayName(pkg);
      if appName.Raised? {
        r := Raised(appName.error);
        return;
      }
      if q.result.value == Str("stopped") {
        sent := sent + [AppLaunch(identifier, pkg)];
      }
      // "running", "not_installed" and "error" are only logged
      r := Ok(());
    }

    /**
     * `take_screenshot`. `initial` is the listing taken before the capture
     * command, `listings` the listings of the polling passes, `present` what
     * `os.path.exists` says of the chosen file afterwards, and `copyFinds`
     * whether `copyfile` finds it.
     */
    method TakeScreenshot(
      moveScreenshot: bool, fileName: string, saveDir: string, sharePath: string, deleteAfterSave: bool,
      manager: Command -> Response, initial: set<string>, listings: seq<set<string>>,
      mtime: string -> int, present: string -> bool, copyFinds: bool)
      returns (r: Outcome<ScreenshotOutcome>, sent: seq<Command>)
      ensures ErrorCode(stateInfo).Raised? ==> r == Raised(ErrorCode(stateInfo).error) && sent == []
      ensures ErrorCode(stateInfo) == Ok(true) ==> r == Ok(EmulatorError) && sent == []
      ensures ErrorCode(stateInfo) == Ok(false) ==> sent == [Screenshot(identifier)]
      ensures ErrorCode(stateInfo) == Ok(false) && manager(Screenshot(identifier)).returncode != 0 ==>
        r == match ErrorEnvelope(manager(Screenshot(identifier)).stdout)
          case Ok(_) => Ok(CaptureFailed)
          case Raised(e) => Raised(e)
      ensures ErrorCode(stateInfo) == Ok(false) && manager(Screenshot(identifier)).returncode == 0 ==>
        r.Ok? && !r.value.EmulatorError? && !r.value.CaptureFailed?
      ensures (
        && ErrorCode(stateInfo) == Ok(false)
        && manager(Screenshot(identifier)).returncode == 0
        && forall k :: 0 <= k < |listings| ==> Candidates(listings[k], initial) == {}
        ) ==> r == Ok(NotFound)
      ensures r.Ok? && r.value.Saved? ==>
        && manager(Screenshot(identifier)).returncode == 0
        && r.value.source.dir == sharePath
        && ChosenScreenshot(r.value.source.name, initial, listings, mtime)
        && present(r.value.source.name) && copyFinds
        && r.value.target == Destination(moveScreenshot, fileName, saveDir, sharePath)
        && r.value.deleteScheduled == deleteAfterSave
      ensures r == Ok(CopyFailed) ==>
        && manager(Screenshot(identifier)).returncode == 0 && !copyFinds
        && exists f :: ChosenScreenshot(f, initial, listings, mtime) && present(f)
      ensures (
        && ErrorCode(stateInfo) == Ok(false)
        && manager(Screenshot(identifier)).returncode == 0
        && r == Ok(NotFound)
        ) ==>
        || (forall k :: 0 <= k < |listings| ==> Candidates(listings[k], initial) == {})
        || exists f :: ChosenScreenshot(f, initial, listings, mtime) && !present(f)
      ensures (
        && ErrorCode(stateInfo) == Ok(false)
        && manager(Screenshot(identifier)).returncode == 0
        && r != Ok(NotFound)
        ) ==>
        && (copyFinds ==> r.Ok? && r.value.Saved?)
        && (!copyFinds ==> r == Ok(CopyFailed))
    {
      var failed := ErrorCode(stateInfo);
      if failed.Raised? {
        r, sent := Raised(failed.error), [];
        return;
      }
      if failed.value {
        r, sent := Ok(EmulatorError), [];
        return;
      }
      var c := Screenshot(identifier);
      sent := [c];
      var p := manager(c);
      if p.returncode != 0 {
        var envelope := ErrorEnvelope(p.stdout);
        r := if envelope.Raised? then Raised(envelope.error) else Ok(CaptureFailed);
        return;
      }
      var found, rounds := PollForScreenshot(initial, listings, mtime);
      if found.None? {
        r := Ok(NotFound);
        return;
      }
      assert ChosenScreenshot(found.value, initial, listings, mtime) by {
        assert forall j :: 0 <= j < rounds ==> Candidates(listings[j], initial) == {};
      }
      if !present(found.value) {
        r := Ok(NotFound);
        return;
      }
      var source := Path(sharePath, found.value);
      var target := Destination(moveScreenshot, fileName, saveDir, sharePath);
      if !copyFinds {
        r := Ok(CopyFailed);
        return;
      }
      // deletion, when asked for, runs on a detached thread after the copy
      r := Ok(Saved(source, target, deleteAfterSave));
    }
  }
}
