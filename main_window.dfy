/** The window controller: server choice, the database list with its
    check boxes and select-all toggle, and the two batch actions. Widgets
    are values: the list is a sequence of (name, check state) items, and a
    message box is the `Notice` a slot returns. Dialog answers, the catalog
    query and the external processes are inputs. */
module Ui {
  import opened Wrappers
  import opened Strings
  import opened Tools
  import BackupManager
  import RestoreManager

  /** `Qt.CheckState`. */
  datatype CheckState = Unchecked | PartiallyChecked | Checked

  /** One row of the database list. */
  datatype Item = Item(name: string, state: CheckState)

  /** The message box a slot ends with, if any. `Uncaught` is an exception
      that escapes the slot. */
  datatype Notice =
    | Silent
    | Information(title: string, text: string)
    | Warning(title: string, text: string)
    | Critical(title: string, text: string)
    | Uncaught(exception: string)

  /** The names in the list, in order. */
  function Names(items: seq<Item>): seq<string> {
    seq(|items|, i requires 0 <= i < |items| => items[i].name)
  }

  /** The names of the checked items, in list order. */
  function Selected(items: seq<Item>): seq<string> {
    if items == [] then []
    else Selected(items[..|items| - 1]) + (if items[|items| - 1].state == Checked then [items[|items| - 1].name] else [])
  }

  /** Selection is taken item by item: the selection of a joined list is
      the selection of its first part followed by that of its second. */
  lemma {:induction false} SelectedAppend(a: seq<Item>, b: seq<Item>)
    ensures Selected(a + b) == Selected(a) + Selected(b)
    decreases |b|
  {
    if b == [] {
      assert a + b == a;
    } else {
      assert (a + b)[..|a + b| - 1] == a + b[..|b| - 1];
      SelectedAppend(a, b[..|b| - 1]);
    }
  }

  /** When every item has the same state, either every name is selected
      (all Checked) or none is. */
  lemma {:induction false} UniformSelection(items: seq<Item>, state: CheckState)
    requires forall i :: 0 <= i < |items| ==> items[i].state == state
    ensures Selected(items) == if state == Checked then Names(items) else []
    decreases |items|
  {
    if items != [] {
      var prefix := items[..|items| - 1];
      UniformSelection(prefix, state);
      assert Names(items) == Names(prefix) + [items[|items| - 1].name];
    }
  }

  /** A freshly loaded list: the fetched names in order, all unchecked, so
      nothing is selected. */
  function FreshList(names: seq<string>): (items: seq<Item>)
    ensures Names(items) == names
    ensures forall i :: 0 <= i < |items| ==> items[i].state == Unchecked
    ensures Selected(items) == []
  {
    var items := seq(|names|, i requires 0 <= i < |names| => Item(names[i], Unchecked));
    UniformSelection(items, Unchecked);
    items
  }

  /** `next(s for s in servers if s["name"] == name)`: the index of the
      first server with that name, or None where Python raises StopIteration. */
  function FirstWithName(servers: seq<Server>, name: string): (r: Option<nat>)
    ensures r.Some? ==> r.value < |servers| && servers[r.value].name == name
    ensures r.Some? ==> forall j :: 0 <= j < r.value ==> servers[j].name != name
    ensures r.None? ==> forall j :: 0 <= j < |servers| ==> servers[j].name != name
  {
    if servers == [] then None
    else if servers[0].name == name then Some(0)
    else match FirstWithName(servers[1..], name)
      case None => None
      case Some(i) => Some(i + 1)
  }

  /** The message of a call that raised, if it did. */
  function ErrorOf(r: Result<string>): Option<string> {
    if r.Err? then Some(r.error) else None
  }

  /** The `errors` list of a batch: one `"item: message"` line per item
      whose operation raised, in the order of the items. */
  function ErrorLines(items: seq<string>, failure: string -> Option<string>): seq<string> {
    if items == [] then []
    else
      var last := items[|items| - 1];
      ErrorLines(items[..|items| - 1], failure) + (if failure(last).Some? then [last + ": " + failure(last).value] else [])
  }

  /** Errors of a joined batch are those of the first part, then those of
      the second: later failures never displace earlier ones. */
  lemma {:induction false} ErrorLinesAppend(a: seq<string>, b: seq<string>, failure: string -> Option<string>)
    ensures ErrorLines(a + b, failure) == ErrorLines(a, failure) + ErrorLines(b, failure)
    decreases |b|
  {
    if b == [] {
      assert a + b == a;
    } else {
      assert (a + b)[..|a + b| - 1] == a + b[..|b| - 1];
      ErrorLinesAppend(a, b[..|b| - 1], failure);
    }
  }

  /** A batch has no errors exactly when no item failed, and never more
      errors than items. */
  lemma {:induction false} ErrorLinesEmpty(items: seq<string>, failure: string -> Option<string>)
    ensures ErrorLines(items, failure) == [] <==> forall i :: 0 <= i < |items| ==> failure(items[i]).None?
    ensures |ErrorLines(items, failure)| <= |items|
    decreases |items|
  {
    if items != [] {
      var prefix := items[..|items| - 1];
      ErrorLinesEmpty(prefix, failure);
      assert forall i :: 0 <= i < |prefix| ==> prefix[i] == items[i];
    }
  }

  /** The one message box that ends a batch: a warning listing the errors,
      one per line, when there are any; otherwise the success message. */
  function Summary(errors: seq<string>, warnTitle: string, okTitle: string, okText: string): (n: Notice)
    ensures n.Warning? || n.Information?
    ensures n.Warning? <==> errors != []
  {
    if errors != [] then Warning(warnTitle, JoinLines(errors)) else Information(okTitle, okText)
  }

  /** The processes a batch launches, grouped by item: for each item in
      order, the ones `launch` starts for it. */
  function Launches(items: seq<string>, launch: string -> seq<Invocation>): (groups: seq<seq<Invocation>>)
    ensures |groups| == |items|
    ensures forall k :: 0 <= k < |items| ==> groups[k] == launch(items[k])
  {
    if items == [] then []
    else
      var prefix := items[..|items| - 1];
      var groups := Launches(prefix, launch) + [launch(items[|items| - 1])];
      assert forall k :: 0 <= k < |prefix| ==> prefix[k] == items[k];
      groups
  }

  /** One more item extends a batch's launches by that item's processes
      and its errors by that item's line, if it failed. */
  lemma BatchStep(items: seq<string>, i: int, launch: string -> seq<Invocation>, failure: string -> Option<string>)
    requires 0 <= i < |items|
    ensures Launches(items[..i + 1], launch) == Launches(items[..i], launch) + [launch(items[i])]
    ensures ErrorLines(items[..i + 1], failure)
         == ErrorLines(items[..i], failure)
            + (if failure(items[i]).Some? then [items[i] + ": " + failure(items[i]).value] else [])
  {
    assert items[..i + 1][..i] == items[..i];
  }

  /** The last process of a non-empty group. */
  function Last(group: seq<Invocation>): Invocation
    requires group != []
  {
    group[|group| - 1]
  }

  /** A batch reports no errors exactly when, for every item, the last
      process launched for it exited 0, provided that is what decides
      whether the item's operation raises. */
  lemma BatchOutcome(items: seq<string>, launch: string -> seq<Invocation>,
                     failure: string -> Option<string>, world: Invocation -> ProcessResult)
    requires forall x :: |launch(x)| >= 1 && (failure(x).None? <==> world(Last(launch(x))).exitCode == 0)
    ensures ErrorLines(items, failure) == [] ==>
            forall k :: 0 <= k < |items| ==> world(Last(Launches(items, launch)[k])).exitCode == 0
    ensures (forall k :: 0 <= k < |items| ==> world(Last(Launches(items, launch)[k])).exitCode == 0) ==>
            ErrorLines(items, failure) == []
  {
    ErrorLinesEmpty(items, failure);
    var groups := Launches(items, launch);
    if ErrorLines(items, failure) == [] {
      forall k | 0 <= k < |items|
        ensures world(Last(groups[k])).exitCode == 0
      {
        assert failure(items[k]).None? && groups[k] == launch(items[k]);
      }
    } else {
      var k :| 0 <= k < |items| && failure(items[k]).Some?;
      assert groups[k] == launch(items[k]);
    }
  }

  /** What `backup_database` raises for one database, if anything. */
  function BackupFailure(server: Server, parentEnv: map<string, string>, folder: string,
                         world: Invocation -> ProcessResult): string -> Option<string>
  {
    db => ErrorOf(BackupManager.BackupDatabase(server, parentEnv, db, folder,
                    world(BackupManager.DumpInvocation(server, parentEnv, db, folder))))
  }

  /** The one `pg_dump` a backup batch launches per database. */
  function BackupLaunch(server: Server, parentEnv: map<string, string>, folder: string): string -> seq<Invocation> {
    db => [BackupManager.DumpInvocation(server, parentEnv, db, folder)]
  }

  /** A backup batch launches one `pg_dump` per database, and reports no
      errors exactly when every one of them exited 0. */
  lemma BackupOutcome(server: Server, parentEnv: map<string, string>, folder: string,
                      world: Invocation -> ProcessResult, dbs: seq<string>)
    ensures var groups := Launches(dbs, BackupLaunch(server, parentEnv, folder));
            && (forall k :: 0 <= k < |groups| ==> groups[k] == [BackupManager.DumpInvocation(server, parentEnv, dbs[k], folder)])
            && ((ErrorLines(dbs, BackupFailure(server, parentEnv, folder, world)) == []) <==>
                (forall k :: 0 <= k < |groups| ==> world(groups[k][0]).exitCode == 0))
  {
    var launch := BackupLaunch(server, parentEnv, folder);
    var failure := BackupFailure(server, parentEnv, folder, world);
    forall x
      ensures |launch(x)| >= 1 && (failure(x).None? <==> world(Last(launch(x))).exitCode == 0)
    {
    }
    BatchOutcome(dbs, launch, failure, world);
  }

  /** What `restore_backup` raises for one file, if anything. */
  function RestoreFailure(server: Server, parentEnv: map<string, string>,
                          world: Invocation -> ProcessResult): string -> Option<string>
  {
    file =>
      var commands := RestoreManager.RestoreCommands(server, parentEnv, file);
      ErrorOf(RestoreManager.RestoreBackup(server, parentEnv, file, world(commands[0]), world(commands[1])))
  }

  /** The `createdb` and `pg_restore` a restore batch launches per file. */
  function RestoreLaunch(server: Server, parentEnv: map<string, string>): string -> seq<Invocation> {
    file => RestoreManager.RestoreCommands(server, parentEnv, file)
  }

  /** For one file, the restore raises exactly when its `pg_restore`, the
      last of the two processes launched for it, exits nonzero. */
  lemma RestoreItem(server: Server, parentEnv: map<string, string>, world: Invocation -> ProcessResult, file: string)
    ensures |RestoreLaunch(server, parentEnv)(file)| == 2
    ensures RestoreFailure(server, parentEnv, world)(file).None?
        <==> world(Last(RestoreLaunch(server, parentEnv)(file))).exitCode == 0
  {
    var commands := RestoreManager.RestoreCommands(server, parentEnv, file);
    assert RestoreLaunch(server, parentEnv)(file) == commands && |commands| == 2 && Last(commands) == commands[1];
  }

  /** A restore batch launches `createdb` then `pg_restore` for each file,
      and reports no errors exactly when every `pg_restore` exited 0,
      whatever the `createdb` runs reported. */
  lemma RestoreOutcome(server: Server, parentEnv: map<string, string>, world: Invocation -> ProcessResult,
                       files: seq<string>)
    ensures var groups := Launches(files, RestoreLaunch(server, parentEnv));
            && (forall k :: 0 <= k < |groups| ==> groups[k] == RestoreManager.RestoreCommands(server, parentEnv, files[k]))
            && ((ErrorLines(files, RestoreFailure(server, parentEnv, world)) == []) <==>
                (forall k :: 0 <= k < |groups| ==> world(groups[k][1]).exitCode == 0))
  {
    var launch := RestoreLaunch(server, parentEnv);
    var failure := RestoreFailure(server, parentEnv, world);
    forall x
      ensures |launch(x)| >= 1 && (failure(x).None? <==> world(Last(launch(x))).exitCode == 0)
    {
      RestoreItem(server, parentEnv, world, x);
    }
    BatchOutcome(files, launch, failure, world);
  }

  const BACKUP_WARN_TITLE := "Backup Completed With Errors"
  const BACKUP_OK_TITLE := "Backup Completed"
  const BACKUP_OK_TEXT := "All selected databases backed up successfully."
  const RESTORE_WARN_TITLE := "Restore Completed With Errors"
  const RESTORE_OK_TITLE := "Restore Completed"
  const RESTORE_OK_TEXT := "All backups restored successfully."

  class MainWindow {
    /** The configured servers, loaded once at start-up. */
    const servers: seq<Server>
    var currentServer: Option<Server>
    /** The database list widget's rows. */
    var dbList: seq<Item>
    /** The select-all check box. */
    var selectAll: bool

    constructor (servers: seq<Server>)
      ensures this.servers == servers && currentServer == None && dbList == [] && !selectAll
    {
      this.servers := servers;
      currentServer := None;
      dbList := [];
      selectAll := false;
    }

    /** The select-all box changing to `state`, then its `toggle_select_all`
        slot: every row becomes Checked when the new state is Checked, and
        Unchecked otherwise; names and order stay. */
    method ToggleSelectAll(state: CheckState)
      modifies this
      ensures |dbList| == |old(dbList)| && Names(dbList) == Names(old(dbList))
      ensures forall i :: 0 <= i < |dbList| ==> dbList[i].state == if state == Checked then Checked else Unchecked
      ensures Selected(dbList) == if state == Checked then Names(dbList) else []
      ensures selectAll == (state == Checked)
      ensures currentServer == old(currentServer)
    {
      // The slot runs on `stateChanged`: the box already shows `state`.
      selectAll := state == Checked;
      var target := if state == Checked then Checked else Unchecked;
      for i := 0 to |dbList|
        invariant |dbList| == |old(dbList)|
        invariant forall k :: 0 <= k < i ==> dbList[k] == Item(old(dbList)[k].name, target)
        invariant forall k :: i <= k < |dbList| ==> dbList[k] == old(dbList)[k]
        invariant currentServer == old(currentServer) && selectAll == (state == Checked)
      {
        dbList := dbList[i := Item(dbList[i].name, target)];
      }
      UniformSelection(dbList, target);
    }

    /** `load_databases`: on a successful catalog query the list becomes the
        fetched names, unchecked, and select-all is cleared; when the query
        raises, a critical box shows the message and nothing changes. */
    method LoadDatabases(catalog: Server -> Result<seq<string>>) returns (notice: Notice)
      requires currentServer.Some?
      modifies this
      ensures currentServer == old(currentServer)
      ensures catalog(currentServer.value).Err? ==>
                notice == Critical("Connection Error", catalog(currentServer.value).error)
                && dbList == old(dbList) && selectAll == old(selectAll)
      ensures catalog(currentServer.value).Ok? ==>
                notice == Silent && dbList == FreshList(catalog(currentServer.value).value) && !selectAll
    {
      var fetched := catalog(currentServer.value);
      if fetched.Err? {
        return Critical("Connection Error", fetched.error);
      }
      var dbs := fetched.value;
      dbList := [];
      for i := 0 to |dbs|
        invariant dbList == FreshList(dbs[..i])
        invariant currentServer == old(currentServer)
      {
        dbList := dbList + [Item(dbs[i], Unchecked)];
      }
      assert dbs[..|dbs|] == dbs;
      selectAll := false;
      notice := Silent;
    }

    /** `connect_server`: with no servers configured, warn; if the dialog is
        dismissed or answers an empty name, do nothing; otherwise make the
        first server with the chosen name current and load its databases. */
    method ConnectServer(choice: string, ok: bool, catalog: Server -> Result<seq<string>>) returns (notice: Notice)
      modifies this
      ensures servers == [] ==> notice == Warning("Error", "No servers configured.") && unchanged(this)
      ensures servers != [] && (!ok || choice == "") ==> notice == Silent && unchanged(this)
      ensures servers != [] && ok && choice != "" && FirstWithName(servers, choice).None? ==>
                notice == Uncaught("StopIteration") && unchanged(this)
      ensures servers != [] && ok && choice != "" && FirstWithName(servers, choice).Some? ==>
                var server := servers[FirstWithName(servers, choice).value];
                && currentServer == Some(server)
                && (catalog(server).Err? ==>
                      notice == Critical("Connection Error", catalog(server).error)
                      && dbList == old(dbList) && selectAll == old(selectAll))
                && (catalog(server).Ok? ==>
                      notice == Silent && dbList == FreshList(catalog(server).value) && !selectAll)
    {
      if servers == [] {
        return Warning("Error", "No servers configured.");
      }
      if !ok || choice == "" {
        return Silent;
      }
      var index := FirstWithName(servers, choice);
      if index.None? {
        return Uncaught("StopIteration");
      }
      currentServer := Some(servers[index.value]);
      notice := LoadDatabases(catalog);
    }

    /** `refresh_databases`: reload the list, or warn when no server is current. */
    method RefreshDatabases(catalog: Server -> Result<seq<string>>) returns (notice: Notice)
      modifies this
      ensures currentServer.None? ==> notice == Warning("Error", "Connect to a server first.") && unchanged(this)
      ensures currentServer == old(currentServer)
      ensures currentServer.Some? && catalog(currentServer.value).Err? ==>
                notice == Critical("Connection Error", catalog(currentServer.value).error)
                && dbList == old(dbList) && selectAll == old(selectAll)
      ensures currentServer.Some? && catalog(currentServer.value).Ok? ==>
                notice == Silent && dbList == FreshList(catalog(currentServer.value).value) && !selectAll
    {
      if currentServer.None? {
        return Warning("Error", "Connect to a server first.");
      }
      notice := LoadDatabases(catalog);
    }

    /** `backup_selected`: without a current server, a selection or a
        folder nothing is launched; otherwise every selected database is
        dumped in list order, a failure never stopping the rest, and one
        summary follows, a success exactly when every `pg_dump` exited 0. */
    method BackupSelected(parentEnv: map<string, string>, folder: string, world: Invocation -> ProcessResult)
      returns (launched: seq<seq<Invocation>>, notice: Notice)
      ensures currentServer.None? ==> launched == [] && notice == Warning("Error", "Connect to server first.")
      ensures currentServer.Some? && Selected(dbList) == [] ==>
                launched == [] && notice == Information("No Selection", "No databases selected.")
      ensures currentServer.Some? && Selected(dbList) != [] && folder == "" ==> launched == [] && notice == Silent
      ensures currentServer.Some? && Selected(dbList) != [] && folder != "" ==>
                var server := currentServer.value;
                var selected := Selected(dbList);
                && launched == Launches(selected, BackupLaunch(server, parentEnv, folder))
                && notice == Summary(ErrorLines(selected, BackupFailure(server, parentEnv, folder, world)),
                                     BACKUP_WARN_TITLE, BACKUP_OK_TITLE, BACKUP_OK_TEXT)
                && (notice.Information? <==> forall k :: 0 <= k < |launched| ==> world(launched[k][0]).exitCode == 0)
    {
      if currentServer.None? {
        return [], Warning("Error", "Connect to server first.");
      }
      var server := currentServer.value;
      var selected := Selected(dbList);
      if selected == [] {
        return [], Information("No Selection", "No databases selected.");
      }
      if folder == "" {
        return [], Silent;
      }
      ghost var failure := BackupFailure(server, parentEnv, folder, world);
      var errors := [];
      launched := [];
      for i := 0 to |selected|
        invariant launched == Launches(selected[..i], BackupLaunch(server, parentEnv, folder))
        invariant errors == ErrorLines(selected[..i], failure)
      {
        var db := selected[i];
        var inv := BackupManager.DumpInvocation(server, parentEnv, db, folder);
        launched := launched + [[inv]];
        var outcome := BackupManager.BackupDatabase(server, parentEnv, db, folder, world(inv));
        if outcome.Err? {
          errors := errors + [db + ": " + outcome.error];
        }
        BatchStep(selected, i, BackupLaunch(server, parentEnv, folder), failure);
        assert failure(db) == ErrorOf(outcome);
      }
      assert selected[..|selected|] == selected;
      BackupOutcome(server, parentEnv, folder, world, selected);
      notice := Summary(errors, BACKUP_WARN_TITLE, BACKUP_OK_TITLE, BACKUP_OK_TEXT);
    }

    /** `restore_backups`: without a current server or chosen files nothing
        is launched; otherwise each file in turn gets `createdb` then
        `pg_restore`, a failure never stopping the rest, and one summary
        follows, a success exactly when every `pg_restore` exited 0. */
    method RestoreBackups(parentEnv: map<string, string>, files: seq<string>, world: Invocation -> ProcessResult)
      returns (launched: seq<seq<Invocation>>, notice: Notice)
      ensures currentServer.None? ==> launched == [] && notice == Warning("Error", "Connect to target server first.")
      ensures currentServer.Some? && files == [] ==> launched == [] && notice == Silent
      ensures currentServer.Some? && files != [] ==>
                var server := currentServer.value;
                && launched == Launches(files, RestoreLaunch(server, parentEnv))
                && notice == Summary(ErrorLines(files, RestoreFailure(server, parentEnv, world)),
                                     RESTORE_WARN_TITLE, RESTORE_OK_TITLE, RESTORE_OK_TEXT)
                && (notice.Information? <==> forall k :: 0 <= k < |launched| ==> world(launched[k][1]).exitCode == 0)
    {
      if currentServer.None? {
        return [], Warning("Error", "Connect to target server first.");
      }
      if files == [] {
        return [], Silent;
      }
      var server := currentServer.value;
      ghost var failure := RestoreFailure(server, parentEnv, world);
      var errors := [];
      launched := [];
      for i := 0 to |files|
        invariant launched == Launches(files[..i], RestoreLaunch(server, parentEnv))
        invariant errors == ErrorLines(files[..i], failure)
      {
        var file := files[i];
        var commands := RestoreManager.RestoreCommands(server, parentEnv, file);
        var created := world(commands[0]);
        var restored := world(commands[1]);
        launched := launched + [commands];
        var outcome := RestoreManager.RestoreBackup(server, parentEnv, file, created, restored);
        if outcome.Err? {
          errors := errors + [file + ": " + outcome.error];
        }
        BatchStep(files, i, RestoreLaunch(server, parentEnv), failure);
        assert failure(file) == ErrorOf(outcome);
      }
      assert files[..|files|] == files;
      RestoreOutcome(server, parentEnv, world, files);
      notice := Summary(errors, RESTORE_WARN_TITLE, RESTORE_OK_TITLE, RESTORE_OK_TEXT);
    }
  }
}
