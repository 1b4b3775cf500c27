# Epic7 Automation: emulator control, a printer, a tree renderer, a channel shift

This project models the emulator-control core of Epic7_Automation in Dafny and proves properties of the model. The core has five parts.

- **The MuMu state store** (`MuMu`, mumu_emulator.py). It holds two stores fed by the MuMuManager tool's replies:
  - emulator index to info object;
  - identifier to app object.

  It also holds the index of the target emulator. It covers the rules for accepting an identifier (an int, a digit string, or `"all"`), the wholesale and single-entry refreshes, and the accessors gated on the state `"start_finished"`. It covers the app-state dispatch and the reverse lookup from app name to package.
- **The older single-emulator controller** (`Emulator`, emulator.py).
  - It addresses one emulator by name or index.
  - It gates every operation on the `error_code` the tool reported.
  - It falls back to fixed app lists on failure.
  - It launches an app only when its state is `"stopped"`.
  - It detects a new screenshot by polling a shared directory.
- **`dict2str`** (`Dict2Str`): the nested-dictionary pretty printer.
- **`generate_file_structure`** (`FileStructure`): the directory-tree renderer.
- **`Vision.shift_channel`** (`Vision`): the in-place saturating shift of an 8-bit channel.

Support modules:
- `Wrappers` holds `Option`.
- `Values` holds the decoded JSON values, the Python exceptions the code lets escape, and `d.get(k)`, `d[k]`, `d[k] = v`.
- `Strings` holds `' ' * n`, `join`, `isdigit`, `int()`, `str()`, `in`, `replace`, `count` and `basename`.

The model treats the outside world as follows:
- **The manager tool** is a function from a command line to its decoded output (`manager`). Every operation returns the commands it issued, in order, as `sent`. So "no command is sent" is part of the contracts.
- **Python exceptions** from malformed tool output (`KeyError`, `TypeError`, `AttributeError`, `ValueError`) are results (`Outcome.Raised`), not preconditions.
- **The directory listings, modification times, file existence and the copy's success** are parameters of `TakeScreenshot`. There is one listing per pass of the polling loop that the deadline allows.
- **The walk of `os.walk`** is a parameter of `GenerateFileStructure`.

## Model

| member | source | states |
|---|---|---|
| MuMu.AllIsAlwaysValid | E7A/emulator/mumu_emulator.py:308-311 | `"all"` is a valid identifier whatever indices are known, including none |
| MuMu.ValidSingleIsKnown | E7A/emulator/mumu_emulator.py:303-316 | a valid identifier other than `"all"` converts with `int()` to a known index |
| MuMu.DigitTextMatchesIndex | E7A/emulator/mumu_emulator.py:305-315 | a non-negative int and its decimal spelling are valid exactly when the index is known |
| MuMu.LeadingZerosAccepted | E7A/emulator/mumu_emulator.py:313-314 | `"007"` is valid exactly when index 7 is known |
| MuMu.InvalidForms | E7A/emulator/mumu_emulator.py:303-316 | objects other than int and str are invalid, and so is a string that is neither `"all"` nor digits |
| MuMu.IntKeyedSucceeds | E7A/emulator/mumu_emulator.py:330 | the int-keyed comprehension raises exactly when some key is refused by `int()` |
| MuMu.IntKeyedKeys | E7A/emulator/mumu_emulator.py:330 | its keys are exactly the converted keys of the reply, so indices missing from the reply disappear |
| MuMu.IntKeyedValues | E7A/emulator/mumu_emulator.py:330 | each index holds the value of the last reply entry that converts to it |
| MuMu.IndexKeys | E7A/emulator/mumu_emulator.py:352 | the app store from an `"all"` refresh has exactly the int indices as keys, with their values |
| MuMu.SingleAppRefresh | E7A/emulator/mumu_emulator.py:354 | a single app refresh binds the identifier as passed to the reply and keeps every other entry |
| MuMu.TextRefreshUnseen | E7A/emulator/mumu_emulator.py:118-119 | after a refresh through `"1"` the store has the key `"1"` but not the int key 1 that the lookup for `"1"` reads |
| MuMu.SingleAppRefreshIntended | E7A/emulator/mumu_emulator.py:352-354 | the corrected refresh binds `int(identifier)` to the reply and keeps every other entry |
| MuMu.IntendedRefreshIgnoresSpelling | E7A/emulator/mumu_emulator.py:352-354 | under the corrected keying, refreshing via an index or via its digit string gives the same store |
| MuMu.AppNameToPackage | E7A/emulator/mumu_emulator.py:364-368 | an app object carrying `errcode` gives the empty lookup |
| MuMu.PackagesByNameSucceeds | E7A/emulator/mumu_emulator.py:369-373 | the lookup succeeds iff every dict entry has a hashable `app_name`. Scalar entries are skipped |
| MuMu.PackagesByNameKeys | E7A/emulator/mumu_emulator.py:369-373 | when it succeeds, its keys are exactly the `app_name`s of the dict entries |
| MuMu.PackagesByNameLastWins | E7A/emulator/mumu_emulator.py:369-373 | each name maps to the package key of the last dict entry carrying it |
| MuMu.MuMuEmulator.constructor | E7A/emulator/mumu_emulator.py:27-33 | both stores start empty and the target index is 0 |
| MuMu.MuMuEmulator.SetTargetEmulatorIndex | E7A/emulator/mumu_emulator.py:47-64 | a valid single identifier sets the target to `int(identifier)`. `"all"` and invalid identifiers leave it unchanged. A changed target is a known index |
| MuMu.MuMuEmulator.UpdateEmulatorInfo | E7A/emulator/mumu_emulator.py:318-339 | an invalid identifier sends nothing and changes nothing. `"all"` replaces the store with the int-keyed reply (unchanged if the conversion raises). A single id updates only its own entry, keeps the key set, and is read back by `GetEmulatorInfo` |
| MuMu.MuMuEmulator.UpdateAppInfo | E7A/emulator/mumu_emulator.py:341-362 | the same three cases for the app store. A single refresh by int is read back by `GetAppInfo`. One by digit string leaves `GetAppInfo` unchanged |
| MuMu.MuMuEmulator.Update | E7A/emulator/mumu_emulator.py:146-148 | emulators are refreshed wholesale, then apps. A raising first step sends only the first command and changes nothing |
| MuMu.MuMuEmulator.GetEmulatorInfo | E7A/emulator/mumu_emulator.py:97-112 | the whole store exactly for `"all"`. A known index's entry for a valid single id. `None` for an invalid one |
| MuMu.MuMuEmulator.GetAppInfo | E7A/emulator/mumu_emulator.py:114-124 | validity is judged against the emulator store. An entry is returned only when it is stored under the int index |
| MuMu.MuMuEmulator.TargetEmulatorState | E7A/emulator/mumu_emulator.py:66-76 | it raises `AttributeError` exactly when the target has no info object. It is `"stopped"` when `player_state` is absent or null, and otherwise exactly the reported `player_state` |
| MuMu.MuMuEmulator.TargetEmulatorAdbAddress | E7A/emulator/mumu_emulator.py:78-88 | `(adb_host_ip, adb_port)` from the target info only in state `"start_finished"`. `(None, None)` in every other state |
| MuMu.MuMuEmulator.TargetEmulatorAppsInfo | E7A/emulator/mumu_emulator.py:90-95 | the target's int-keyed app entry when started. `{}` otherwise |
| MuMu.MuMuEmulator.GetAppState | E7A/emulator/mumu_emulator.py:126-144 | `"wrong_identifier"` and `"not_ready"` are answered without a command, and an unreadable target state raises without one. A valid id with the target started sends exactly the package query. The result is the reply's `state` (None when absent), and it raises `AttributeError` iff the reply is not an object |
| MuMu.MuMuEmulator.LaunchTargetEmulator | E7A/emulator/mumu_emulator.py:150-162 | `launch` is sent whenever `is_process_started` can be read, whether started or not |
| MuMu.MuMuEmulator.ShutdownTargetEmulator | E7A/emulator/mumu_emulator.py:164-176 | `shutdown` is sent whenever `is_process_started` can be read |
| MuMu.MuMuEmulator.LaunchAppOnTargetEmulator | E7A/emulator/mumu_emulator.py:178-195 | the launch command is sent iff the target's app state is `"stopped"`, after the state query's commands. An exception from the state query is passed on. Nothing is sent while the target is not started |
| MuMu.MuMuEmulator.CloseAppOnTargetEmulator | E7A/emulator/mumu_emulator.py:197-202 | `app close` is sent unconditionally |
| Emulator.ManagerIdentifier | E7A/emulator/emulator.py:61-64 | the identifier is the name when given. Otherwise it is `str(vm_index)`, which parses back to the index |
| Emulator.ErrorCode | E7A/emulator/emulator.py:139 | the gate reads `error_code` and is true iff it is non-zero. It raises `KeyError("error_code")` when the key is absent and `TypeError` when the state is not an object |
| Emulator.ErrorEnvelope | E7A/emulator/emulator.py:106-111 | an error log succeeds iff the reply has `errcode` and `errmsg`, and yields `errcode` |
| Emulator.PlayerState | E7A/emulator/emulator.py:103-112 | the state is the reply. After a failed command the error log raises iff `errcode` or `errmsg` is missing. When it succeeds, `error_code` holds the reply's `errcode` and every other entry of the reply is kept |
| Emulator.AppListFrom | E7A/emulator/emulator.py:147-162 | a failed app query gives `{"The emulator is not ready": None}`. A successful one gives the reply |
| Emulator.RefreshApps | E7A/emulator/emulator.py:132-163 | a non-zero `error_code` gives `{"Apps info update failed.": None}` without the app query. The app query is sent iff `error_code` is zero. When reading `error_code` raises, that exception is passed on after the `info` command alone. A raising step leaves `app_list` unchanged |
| Emulator.Newest | E7A/emulator/emulator.py:271 | picks a file of the set with maximal modification time |
| Emulator.PollForScreenshot | E7A/emulator/emulator.py:262-273 | stops at the first pass with a new non-`.pending` file and returns one with maximal mtime. Every earlier pass had none. Without one, it runs every pass |
| Emulator.Destination | E7A/emulator/emulator.py:282-290 | the copy goes to `save_dir/file_name` when moving, else to `share_path/file_name` |
| Emulator.AdbError | E7A/emulator/emulator.py:315-322 | true iff the return code is non-zero. On a failed command whose reply lacks `errcode` or `errmsg`, it raises the error log's exception |
| Emulator.MuMuEmulator.constructor | E7A/emulator/emulator.py:60-67 | `index`, `name` and `identifier` as given, the uninitialized app list, and an empty state |
| Emulator.MuMuEmulator.UpdatePlayerState | E7A/emulator/emulator.py:93-114 | sends `info`. The state becomes the reply, with `error_code` set from `errcode` on failure |
| Emulator.MuMuEmulator.UpdateInstalledApps | E7A/emulator/emulator.py:132-163 | the new state, app list and commands are those of `RefreshApps` |
| Emulator.MuMuEmulator.GetAppState | E7A/emulator/emulator.py:165-188 | `"error"` without a command when `error_code` is non-zero. `"error"` when the query fails and its error log succeeds, and the error log's exception when that raises. Otherwise the reply's `state` |
| Emulator.MuMuEmulator.LaunchApp | E7A/emulator/emulator.py:190-206 | refreshes apps first and keeps the refreshed state. It raises iff the refresh, the state query or the `app_name` lookup raises, and passes that exception on. The commands are the refresh's, then the query's, then `app launch` iff the state is `"stopped"` |
| Emulator.MuMuEmulator.TakeScreenshot | E7A/emulator/emulator.py:214-303 | with `error_code` non-zero nothing is sent. A failed capture stops before polling. Not found means no pass had a candidate, or a chosen file no longer exists. Otherwise the file is saved when the copy finds it and the copy fails when it does not. A saved file is the newest candidate of the first pass that had one, copied to `Destination`. Deletion is scheduled only after a successful copy |
| Dict2Str.Shown | E7A/common/utils/dict2str.py:11-13 | a leaf value is wrapped in double quotes iff it is a string. No other leaf prints a quote |
| Dict2Str.LeafLine | E7A/common/utils/dict2str.py:11-13 | a leaf line is `indent` spaces, then `key: type = value` |
| Dict2Str.Group | E7A/common/utils/dict2str.py:6-13 | a leaf entry adds one line. A nested dict adds `key:{`, its contents, and `}` at the current indent |
| Dict2Str.Dict2Str | E7A/common/utils/dict2str.py:16 | the output starts with `{` and a newline, ends with a newline and `}`, and is `{`, two newlines and `}` for an empty dict |
| Dict2Str.ParseDictAppend | E7A/common/utils/dict2str.py:4-14 | entries render in insertion order, one group each, separated by a newline |
| Dict2Str.NestedEntry | E7A/common/utils/dict2str.py:6-9 | a nested dict renders its header, its contents at twice the indent, and its closing brace at the current indent |
| Dict2Str.ParseDictIsOutline | E7A/common/utils/dict2str.py:3-14 | the output equals a flat outline in which an entry at nesting depth d is indented by `indent * 2^d` |
| FileStructure.ShouldIgnoreIff | E7A/common/utils/generate_file_structure.py:4-11 | a path is ignored iff some pattern is a substring of it; never for an empty list |
| FileStructure.Ignores | E7A/common/utils/generate_file_structure.py:21 | a missing ignore list behaves as the empty list |
| FileStructure.EntryLines | E7A/common/utils/generate_file_structure.py:25-32 | an ignored root adds no line. A kept root adds its directory line first, then one line per file |
| FileStructure.FileLinesShowFiles | E7A/common/utils/generate_file_structure.py:31-32 | the file lines of a kept root show its files, one each, in the walk's order |
| FileStructure.RenderAllIndex | E7A/common/utils/generate_file_structure.py:27-32 | each printed line is the print of the corresponding listing line |
| FileStructure.RenderKeptEntry | E7A/common/utils/generate_file_structure.py:27-32 | a kept root prints as its base name and `/` at four spaces per level, followed by its files one level deeper |
| FileStructure.GenerateFileStructure | E7A/common/utils/generate_file_structure.py:14-33 | the output is the newline-join of the printed lines of every kept root, in walk order |
| FileStructure.AddFiles | E7A/common/utils/generate_file_structure.py:30-32 | appends the printed file lines of a root: one per file, indented one level below the root, in order |
| FileStructure.TreeLinesAppend | E7A/common/utils/generate_file_structure.py:23-32 | the walk is processed entry by entry: the listing of a concatenated walk is the concatenation of the listings |
| FileStructure.IgnoredContributeNothing | E7A/common/utils/generate_file_structure.py:25-26 | the listing depends only on the roots that are not ignored |
| FileStructure.TreeLinesCount | E7A/common/utils/generate_file_structure.py:22-32 | the line count is the sum over kept roots of one plus their file count |
| FileStructure.RootLineFirst | E7A/common/utils/generate_file_structure.py:27-29 | the walk's first root, `root_dir` itself, prints first and unindented, as its base name and `/` |
| FileStructure.NewlinesBetweenLines | E7A/common/utils/generate_file_structure.py:33 | the lines are joined without a trailing newline: one newline fewer than lines |
| Vision.Shifted | E7A/graphics/deprecated_vision.py:71-80 | a positive shift gives `min(v + amount, 255)`. A negative one gives `max(v - abs(amount), 0)`. Zero leaves the value |
| Vision.ShiftChannel | E7A/graphics/deprecated_vision.py:69-80 | updates the array in place to the clamped shift of every element and returns the same array |

## Findings

| source | as written | input that shows it | evidently intended | confidence | as-written member | corrected member |
|---|---|---|---|---|---|---|
| E7A/emulator/mumu_emulator.py:354 | a single app refresh stores the reply under the identifier as passed, so a digit string becomes a string key | `_update_app_info("1")` then `get_app_info("1")`: the lookup reads the int key 1 and misses the new reply | store under `int(identifier)`, as the `"all"` refresh and `get_app_info` do | medium, not executed | MuMu.SingleAppRefresh, MuMu.TextRefreshUnseen | MuMu.SingleAppRefreshIntended |

`MuMu.MuMuEmulator.UpdateAppInfo` keeps the source's keying, so the class behaves as the code does. The corrected keying is stated and proved beside it.

## Left out

- Process execution and `json.loads` are not modelled: the tool is a function returning the decoded output. mumu_emulator.py's commands return that output in place of a `CompletedProcess`.
- JSON lists and floats are not in `Value`. A reply holding them is outside the model.
- MuMu.IntKeyed, MuMu.PackagesByName: an object that repeats a key is not modelled as Python sees it. `json.loads` keeps each key once, at its first position with its last value, and the comprehension and the loop walk that dictionary. The model walks every raw entry, so it agrees with Python only for objects whose keys are distinct.
- `int()` and `str.isdigit()` are modelled over ASCII only. Surrounding whitespace, underscores and non-ASCII digits are not modelled.
- Python's `True == 1` is not modelled. A bool identifier is treated as "any other object". A bool and an int `app_name` are distinct keys.
- `_target_adb` (mumu_emulator.py:34) is never read, so it is left out.
- These wrappers around one shell command are left out: mumu_emulator.py's `take_screenshot`, `send_tap`, `send_swipe` and `send_key`; emulator.py's `launch`, `shutdown`, `close_app`, `get_screenshot_adb`, `send_touch`, `send_swipe`, `send_key` and `execute_command`.
- `__repr__`, logging, and the mumu `__init__` logger setup are left out.
- MuMu.MuMuEmulator.constructor: `__init__`'s call to `update()` is the separate `Update` method.
- Emulator.MuMuEmulator.constructor: `__init__`'s closing `update_player_state()` is the separate `UpdatePlayerState` method, because a constructor cannot report the exception it may raise.
- Emulator.MuMuEmulator.TakeScreenshot: these are not modelled:
  - the clock, `wait_time` and `check_interval` (only the number of passes is);
  - the detached `delayed_delete` thread (only its scheduling is);
  - the creation of `save_dir`;
  - every exception from `os.listdir` and `os.path.getmtime` (for example a missing `share_path`, or a new file removed between the listing and the mtime read), and those from `copyfile` other than `FileNotFoundError`, such as copying a file onto itself.
- Emulator.Newest: ties in modification time are broken arbitrarily, where `max` keeps the first in set iteration order.
- Paths use `/` as the separator and `posixpath.basename`. `os.path.join` is kept as a (directory, name) pair. Windows separators and drive letters are not modelled.
- FileStructure.GenerateFileStructure: `dirs` of each walk entry is carried but unused, as in the source. Pruning of the walk is not modelled.
- Dict2Str.Dict2Str: keys are strings and leaves are None, bool, int and str. Other key types, and leaf types such as float or list, are not modelled.
- Vision.ShiftChannel: requires `-255 <= amount <= 255`, the range the trackbars at deprecated_vision.py:30-33 produce. Larger amounts overflow `uint8` arithmetic in the source and are not modelled.
- `apply_hsv_filter` and the trackbar GUI are cv2 calls and are left out.
