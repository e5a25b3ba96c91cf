/** The database tables an apply moves: exits, rule versions, apply_status rows. A statement may fail;
    a transaction that does not commit changes nothing. */
module Stores {
  import opened Text
  import opened Rules

  // ---------- exits ----------

  datatype Exits = Exits(present: set<string>, active: set<string>)

  datatype StoreError = Fault | NotFound | IsActive | Duplicate | Invalid

  datatype ExitRow = ExitRow(id: string, active: bool)

  predicate ValidExitId(id: string) {
    id != "" && forall i :: 0 <= i < |id| ==>
                  var c := id[i];
                  'a' <= c <= 'z' || 'A' <= c <= 'Z' || '0' <= c <= '9' || c == '_' || c == '-'
  }

  function Ids(rows: seq<ExitRow>): set<string> {
    set i | 0 <= i < |rows| :: rows[i].id
  }

  function ActiveIds(rows: seq<ExitRow>): set<string> {
    set i | 0 <= i < |rows| && rows[i].active :: rows[i].id
  }

  // exit_id is unique, and at most one row is active: the two indexes of the table.
  predicate Indexed(rows: seq<ExitRow>) {
    && (forall i, j :: 0 <= i < j < |rows| ==> rows[i].id != rows[j].id)
    && (forall i, j :: 0 <= i < j < |rows| ==> !(rows[i].active && rows[j].active))
  }

  // UPDATE exits SET active = 0 WHERE active = 1
  function Demoted(rows: seq<ExitRow>): seq<ExitRow> {
    seq(|rows|, i requires 0 <= i < |rows| => rows[i].(active := false))
  }

  // UPDATE exits SET active = 1 WHERE exit_id = id
  function Promoted(rows: seq<ExitRow>, id: string): seq<ExitRow> {
    seq(|rows|, i requires 0 <= i < |rows| => if rows[i].id == id then rows[i].(active := true) else rows[i])
  }

  // DELETE FROM exits WHERE exit_id = id
  function Deleted(rows: seq<ExitRow>, id: string): seq<ExitRow> {
    if rows == [] then [] else (if rows[0].id == id then [] else [rows[0]]) + Deleted(rows[1..], id)
  }

  function Flagged(rows: seq<ExitRow>, active: bool): seq<ExitRow> {
    if rows == [] then [] else (if rows[0].active == active then [rows[0]] else []) + Flagged(rows[1..], active)
  }

  lemma {:induction false} DeletedRows(rows: seq<ExitRow>, id: string)
    requires Indexed(rows)
    ensures Indexed(Deleted(rows, id))
    ensures forall r :: r in Deleted(rows, id) <==> r in rows && r.id != id
  {
    if rows != [] {
      DeletedRows(rows[1..], id);
    }
  }

  lemma {:induction false} DeletedAt(rows: seq<ExitRow>, id: string, k: nat)
    requires Indexed(rows) && k < |rows| && rows[k].id == id
    ensures Deleted(rows, id) == rows[..k] + rows[k + 1..]
  {
    if k == 0 {
      NothingDeleted(rows[1..], id);
    } else {
      DeletedAt(rows[1..], id, k - 1);
      assert rows[1..][..k - 1] == rows[1..k] && rows[1..][k..] == rows[k + 1..];
      assert [rows[0]] + rows[1..k] == rows[..k];
      Regroup([rows[0]], rows[1..k], rows[k + 1..]);
    }
  }

  lemma {:induction false} NothingDeleted(rows: seq<ExitRow>, id: string)
    requires forall i :: 0 <= i < |rows| ==> rows[i].id != id
    ensures Deleted(rows, id) == rows
  {
    if rows != [] {
      NothingDeleted(rows[1..], id);
    }
  }

  lemma RowSets(rows: seq<ExitRow>)
    ensures forall x :: x in Ids(rows) <==> exists r :: r in rows && r.id == x
    ensures forall x :: x in ActiveIds(rows) <==> exists r :: r in rows && r.id == x && r.active
  {
    forall x | x in Ids(rows) ensures exists r :: r in rows && r.id == x {
      var i :| 0 <= i < |rows| && rows[i].id == x;
      assert rows[i] in rows;
    }
    forall x | x in ActiveIds(rows) ensures exists r :: r in rows && r.id == x && r.active {
      var i :| 0 <= i < |rows| && rows[i].active && rows[i].id == x;
      assert rows[i] in rows;
    }
  }

  lemma DeletedView(rows: seq<ExitRow>, id: string)
    requires Indexed(rows)
    ensures Ids(Deleted(rows, id)) == Ids(rows) - {id}
    ensures ActiveIds(Deleted(rows, id)) == ActiveIds(rows) - {id}
  {
    DeletedRows(rows, id);
    RowSets(rows);
    RowSets(Deleted(rows, id));
    forall x | x in Ids(rows) - {id} ensures x in Ids(Deleted(rows, id)) {
      var r :| r in rows && r.id == x;
      assert r in Deleted(rows, id);
    }
    forall x | x in ActiveIds(rows) - {id} ensures x in ActiveIds(Deleted(rows, id)) {
      var r :| r in rows && r.id == x && r.active;
      assert r in Deleted(rows, id);
    }
  }

  lemma SwitchedRows(rows: seq<ExitRow>, id: string)
    requires Indexed(rows)
    ensures Indexed(Promoted(Demoted(rows), id))
    ensures Ids(Promoted(Demoted(rows), id)) == Ids(rows)
    ensures ActiveIds(Promoted(Demoted(rows), id)) == Ids(rows) * {id}
  {
    var after := Promoted(Demoted(rows), id);
    assert forall i :: 0 <= i < |rows| ==> after[i].id == rows[i].id && after[i].active == (rows[i].id == id);
  }

  lemma {:induction false} SplitByActive(rows: seq<ExitRow>, active: bool)
    ensures forall r :: r in Flagged(rows, active) <==> r in rows && r.active == active
    ensures multiset(Flagged(rows, true)) + multiset(Flagged(rows, false)) == multiset(rows)
  {
    if rows != [] {
      SplitByActive(rows[1..], active);
      assert rows == [rows[0]] + rows[1..];
    }
  }

  lemma {:induction false} AllInactive(rows: seq<ExitRow>)
    requires forall r :: r in rows ==> !r.active
    ensures Flagged(rows, true) == [] && Flagged(rows, false) == rows
  {
    if rows != [] {
      AllInactive(rows[1..]);
      assert rows == [rows[0]] + rows[1..];
    }
  }

  lemma {:induction false} OneActiveRow(rows: seq<ExitRow>, i: nat)
    requires Indexed(rows) && i < |rows| && rows[i].active
    ensures Flagged(rows, true) == [rows[i]] && Flagged(rows, false) == rows[..i] + rows[i + 1..]
  {
    if i == 0 {
      AllInactive(rows[1..]);
    } else {
      OneActiveRow(rows[1..], i - 1);
      assert rows[1..][..i - 1] == rows[1..i] && rows[1..][i..] == rows[i + 1..];
      assert [rows[0]] + rows[1..i] == rows[..i];
    }
  }

  lemma Regroup(a: seq<ExitRow>, b: seq<ExitRow>, c: seq<ExitRow>)
    ensures a + (b + c) == a + b + c
  {
  }

  /** The list renderers read: the active exit, then the others in the order of their creation. */
  lemma ActiveFirst(rows: seq<ExitRow>, i: nat)
    requires Indexed(rows) && i < |rows| && rows[i].active
    ensures Flagged(rows, true) + Flagged(rows, false) == [rows[i]] + rows[..i] + rows[i + 1..]
  {
    OneActiveRow(rows, i);
    Regroup([rows[i]], rows[..i], rows[i + 1..]);
  }

  datatype LookupResult = Missing | LookupFault | Row(active: bool)

  class ExitStore {
    var rows: seq<ExitRow>       // in order of creation
    ghost var faults: nat        // statements and transactions the database has not taken
    ghost var switchFaults: nat  // the switches among them

    ghost predicate Valid()
      reads this`rows
    {
      Indexed(rows)
    }

    function View(): Exits
      reads this`rows
    {
      Exits(Ids(rows), ActiveIds(rows))
    }

    constructor ()
      ensures Valid() && rows == [] && faults == switchFaults == 0
    {
      rows, faults, switchFaults := [], 0, 0;
    }

    /** Active rows first; which exits are listed and which are active does not depend on the order. */
    method List() returns (list: seq<ExitRow>, ok: bool)
      modifies this`faults
      ensures faults == old(faults) + if ok then 0 else 1
      ensures ok ==> list == Flagged(rows, true) + Flagged(rows, false)
      ensures ok ==> Ids(list) == Ids(rows) && ActiveIds(list) == ActiveIds(rows)
    {
      ok := *;
      faults := faults + if ok then 0 else 1;
      list := if ok then Flagged(rows, true) + Flagged(rows, false) else [];
      SplitByActive(rows, true);
      SplitByActive(rows, false);
      RowSets(rows);
      RowSets(list);
      assert ok ==> forall r :: r in list <==> r in rows;
    }

    /** Appends an inactive row with a fresh valid id; what it refuses, and why, is decided by the id and the rows. */
    method Add(id: string) returns (err: Option<StoreError>)
      requires Valid()
      modifies this`rows, this`faults
      ensures Valid()
      ensures err == None ==> id !in old(Ids(rows)) && rows == old(rows) + [ExitRow(id, false)]
      ensures err.Some? ==> rows == old(rows)
      ensures err == Some(Invalid) <==>
                id == "" || exists i :: 0 <= i < |id| && !('a' <= id[i] <= 'z') && !('A' <= id[i] <= 'Z')
                                        && !('0' <= id[i] <= '9') && id[i] !in {'_', '-'}
      ensures faults == old(faults) + if err == Some(Fault) then 1 else 0
      ensures err == None || err.value in {Invalid, Fault, Duplicate}
      ensures err == Some(Duplicate) ==> id in Ids(rows)
    {
      if !ValidExitId(id) {
        return Some(Invalid);
      }
      var ok := *;
      if !ok {
        faults := faults + 1;
        return Some(Fault);
      }
      if id in Ids(rows) {
        return Some(Duplicate);
      }
      rows := rows + [ExitRow(id, false)];
      return None;
    }

    method Lookup(id: string) returns (found: LookupResult)
      requires Valid()
      modifies this`faults
      ensures faults == old(faults) + if found.LookupFault? then 1 else 0
      ensures found.Missing? ==> id !in Ids(rows)
      ensures found.Row? ==> id in Ids(rows) && (found.active <==> id in ActiveIds(rows))
    {
      var ok := *;
      if !ok {
        faults := faults + 1;
        return LookupFault;
      }
      for i := 0 to |rows|
        invariant forall k :: 0 <= k < i ==> rows[k].id != id
      {
        if rows[i].id == id {
          return Row(rows[i].active);
        }
      }
      return Missing;
    }

    method Remove(id: string) returns (err: Option<StoreError>)
      requires Valid()
      modifies this`rows, this`faults
      ensures Valid()
      ensures err == None ==> View() == Exits(old(View()).present - {id}, old(View()).active - {id})
      ensures err == None ==> rows == Deleted(old(rows), id) && id in old(Ids(rows))
      ensures err == None ==>
                exists k :: 0 <= k < |old(rows)| && old(rows)[k].id == id && rows == old(rows)[..k] + old(rows)[k + 1..]
      ensures err.Some? ==> rows == old(rows) && (err.value.Fault? || err.value.NotFound?)
      ensures err == Some(NotFound) ==> id !in Ids(rows)
      ensures faults == old(faults) + if err == Some(Fault) then 1 else 0
    {
      var ok := *;
      if !ok {
        faults := faults + 1;
        return Some(Fault);
      }
      var affected := id in Ids(rows);
      DeletedRows(rows, id);
      DeletedView(rows, id);
      if !affected {
        return Some(NotFound);
      }
      ghost var k :| 0 <= k < |rows| && rows[k].id == id;
      DeletedAt(rows, id, k);
      rows := Deleted(rows, id);
      return None;
    }

    /** Removes exactly an inactive exit, when nothing moves between its two statements. */
    method Delete(id: string) returns (err: Option<StoreError>)
      requires Valid()
      modifies this`rows, this`faults
      ensures Valid() && View().active == old(View()).active
      ensures err == None ==> id in old(View()).present && View().present == old(View()).present - {id}
      ensures err == None ==>
                exists k :: 0 <= k < |old(rows)| && old(rows)[k] == ExitRow(id, false)
                            && rows == old(rows)[..k] + old(rows)[k + 1..]
      ensures err.Some? ==> rows == old(rows)
      ensures faults == old(faults) + if err == Some(Fault) then 1 else 0
      ensures faults == old(faults) ==>
                err == if id !in old(View()).present then Some(NotFound)
                       else if id in old(View()).active then Some(IsActive) else None
    {
      var found := Lookup(id);
      match found {
        case Missing => return Some(NotFound);
        case LookupFault => return Some(Fault);
        case Row(active) =>
          if active {
            return Some(IsActive);
          }
          err := Remove(id);
      }
    }

    /** One transaction: exactly the named exit is active afterwards, or nothing changed. */
    method Switch(id: string) returns (err: Option<StoreError>)
      requires Valid()
      modifies this
      ensures Valid()
      ensures err == None ==> id in old(View()).present && View() == Exits(old(View()).present, {id})
      ensures err == None ==>
                |rows| == |old(rows)|
                && forall i :: 0 <= i < |rows| ==> rows[i] == ExitRow(old(rows)[i].id, old(rows)[i].id == id)
      ensures err.Some? ==> rows == old(rows) && (err.value.Fault? || err.value.NotFound?)
      ensures err == Some(NotFound) ==> id !in View().present
      ensures faults - old(faults) == switchFaults - old(switchFaults) == if err == Some(Fault) then 1 else 0
    {
      var tx := rows;
      var begun := *;
      if !begun {
        faults, switchFaults := faults + 1, switchFaults + 1;
        return Some(Fault);
      }
      if id !in Ids(tx) {
        return Some(NotFound);
      }
      tx := Demoted(tx);
      var demoted := *;
      if !demoted {
        faults, switchFaults := faults + 1, switchFaults + 1;
        return Some(Fault);
      }
      tx := Promoted(tx, id);
      var committed := *;
      if !committed {
        faults, switchFaults := faults + 1, switchFaults + 1;
        return Some(Fault);
      }
      SwitchedRows(rows, id);
      rows := tx;
      return None;
    }

    /** The active row's id, or "" for none. */
    method Active() returns (id: string, ok: bool)
      requires Valid() && "" !in Ids(rows)
      modifies this`faults
      ensures faults == old(faults) + if ok then 0 else 1
      ensures ok ==> if id == "" then View().active == {} else View().active == {id}
    {
      ok := *;
      faults := faults + if ok then 0 else 1;
      id := "";
      for i := 0 to |rows|
        invariant id == "" ==> forall k :: 0 <= k < i ==> !rows[k].active
        invariant id != "" ==> exists k :: 0 <= k < |rows| && rows[k].active && rows[k].id == id
      {
        if rows[i].active {
          id := rows[i].id;
        }
      }
    }
  }

  // ---------- rule versions ----------

  // A stored version; its rules are None when the stored text does not parse or does not validate.
  datatype Version = Version(snapshot: nat, rules: Option<seq<Rule>>)

  class RuleVersions {
    var versions: map<nat, Version>
    var active: set<nat>
    ghost var faults: nat        // reads, statements and transactions the database has not taken

    // The partial unique index.
    ghost predicate Valid()
      reads this`versions, this`active
    {
      active <= versions.Keys && forall a, b :: a in active && b in active ==> a == b
    }

    ghost function Current(): (v: Option<nat>)
      requires Valid()
      reads this`versions, this`active
      ensures active == if v.Some? then {v.value} else {}
    {
      if id :| id in active then Some(id) else None
    }

    constructor ()
      ensures Valid() && versions == map[] && active == {} && faults == 0
    {
      versions, active, faults := map[], {}, 0;
    }

    method InsertRuleVersion(id: nat, v: Version) returns (ok: bool)
      requires Valid() && id !in versions
      modifies this`versions, this`faults
      ensures Valid()
      ensures versions == if ok then old(versions)[id := v] else old(versions)
      ensures faults == old(faults) + if ok then 0 else 1
    {
      ok := *;
      faults := faults + if ok then 0 else 1;
      if ok {
        versions := versions[id := v];
      }
    }

    /** One transaction: exactly that version is active afterwards, or nothing changed. */
    method SetActiveRuleVersion(id: nat) returns (err: Option<StoreError>)
      requires Valid()
      modifies this`active, this`faults
      ensures Valid()
      ensures active == if err == None then {id} else old(active)
      ensures faults == old(faults) + if err == Some(Fault) then 1 else 0
      ensures faults == old(faults) ==> err == if id in versions then None else Some(NotFound)
    {
      var ok := *;
      if !ok {
        faults := faults + 1;
        return Some(Fault);
      }
      if id !in versions {
        return Some(NotFound);
      }
      active := {id};
      return None;
    }

    method ClearActiveRuleVersion() returns (ok: bool)
      requires Valid()
      modifies this`active, this`faults
      ensures Valid() && active == if ok then {} else old(active)
      ensures faults == old(faults) + if ok then 0 else 1
    {
      ok := *;
      faults := faults + if ok then 0 else 1;
      if ok {
        active := {};
      }
    }
  }

  // ---------- apply_status ----------

  datatype RowState = Submitted | Confirmed | RolledBack | Failed

  // attempts counts the terminal updates aimed at the row, whether or not the database took them.
  datatype StatusRow = StatusRow(snapshot: nat, state: RowState, attempts: nat)

  function UpdateRow(rows: seq<StatusRow>, row: nat, state: RowState, ok: bool): seq<StatusRow>
    requires row < |rows|
  {
    rows[row := rows[row].(state := if ok then state else rows[row].state, attempts := rows[row].attempts + 1)]
  }

  class ApplyStatus {
    var rows: seq<StatusRow>     // the n-th row has id n
    ghost var faults: nat        // statements the database has not taken

    constructor ()
      ensures rows == [] && faults == 0
    {
      rows, faults := [], 0;
    }

    method InsertApplyStatus(snapshot: nat) returns (id: nat, ok: bool)
      modifies this
      ensures rows == if ok then old(rows) + [StatusRow(snapshot, Submitted, 0)] else old(rows)
      ensures id == |old(rows)|
      ensures faults == old(faults) + if ok then 0 else 1
    {
      ok := *;
      faults := faults + if ok then 0 else 1;
      id := |rows|;
      if ok {
        rows := rows + [StatusRow(snapshot, Submitted, 0)];
      }
    }

    method UpdateApplyStatus(id: nat, state: RowState) returns (ok: bool)
      modifies this
      ensures id >= |old(rows)| ==> !ok && rows == old(rows)
      ensures id < |old(rows)| ==> rows == UpdateRow(old(rows), id, state, ok)
      ensures id < |old(rows)| ==>
                && |rows| == |old(rows)| && (forall k :: 0 <= k < |rows| && k != id ==> rows[k] == old(rows)[k])
                && rows[id].snapshot == old(rows)[id].snapshot && rows[id].attempts == old(rows)[id].attempts + 1
                && rows[id].state == (if ok then state else old(rows)[id].state)
                && faults == old(faults) + if ok then 0 else 1
    {
      if id >= |rows| {
        return false;
      }
      ok := *;
      faults := faults + if ok then 0 else 1;
      rows := UpdateRow(rows, id, state, ok);
    }
  }
}
