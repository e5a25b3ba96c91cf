/** The applier object: the gate that admits one variation at a time, the in-flight tables, the exits a switch
    protects, and the commit and compensation steps over the stores. */
module Applier {
  import opened Text
  import opened Rules
  import opened RuleTable
  import opened Stores
  import Systemd

  // ---------- resolver tables and versions ----------

  function RulesOf(versions: map<nat, Version>, active: Option<nat>): seq<Rule> {
    if active.Some? && active.value in versions && versions[active.value].rules.Some?
    then versions[active.value].rules.value
    else []
  }

  // What the table built from a version answers with: its enabled rules in scan order.
  function TableOf(versions: map<nat, Version>, active: Option<nat>): seq<Rule> {
    ScanOrder(RulesOf(versions, active))
  }

  datatype RuleInfo = RuleInfo(
    row: nat, target: nat, prior: Option<nat>, targetTable: seq<Rule>, priorTable: seq<Rule>, committed: bool)

  // The entry of a rules apply whose row is open.
  function NewInfo(versions: map<nat, Version>, row: nat, target: nat, prior: Option<nat>): RuleInfo {
    RuleInfo(row, target, prior, TableOf(versions, Some(target)), TableOf(versions, prior), false)
  }

  function SnapshotOf(versions: map<nat, Version>, active: Option<nat>): nat {
    if active.Some? && active.value in versions then versions[active.value].snapshot else 0
  }

  // The caller believed another snapshot to be active.
  predicate Stale(prev: nat, prior: nat) {
    prev != 0 && prior != 0 && prev != prior
  }

  datatype SwitchInfo = SwitchInfo(row: nat, to: string, from: string)

  // compensateSwitch over the exits; ok says whether the store took it, the flag whether the prior exit is back.
  function Compensated(exits: Exits, prior: string, ok: bool): (Exits, bool) {
    if prior == "" then (exits, true)
    else if ok && prior in exits.present then (Exits(exits.present, {prior}), true)
    else (exits, false)
  }

  // The part of an assembled config that applies move: the rules, and the exit listed first.
  datatype Config = Config(rules: seq<Rule>, exits: set<string>)

  // ---------- protection counts ----------

  function Count(protected: map<string, nat>, id: string): nat {
    if id in protected then protected[id] else 0
  }

  function Protect(protected: map<string, nat>, ids: seq<string>): map<string, nat>
    decreases |ids|
  {
    if ids == [] then protected
    else Protect(if ids[0] == "" then protected else protected[ids[0] := Count(protected, ids[0]) + 1], ids[1..])
  }

  function UnprotectOne(protected: map<string, nat>, id: string): map<string, nat> {
    if id == "" then protected
    else if Count(protected, id) <= 1 then protected - {id}
    else protected[id := protected[id] - 1]
  }

  function Unprotect(protected: map<string, nat>, ids: seq<string>): map<string, nat>
    decreases |ids|
  {
    if ids == [] then protected else Unprotect(UnprotectOne(protected, ids[0]), ids[1..])
  }

  ghost predicate Counting(protected: map<string, nat>) {
    forall id :: id in protected ==> protected[id] > 0 && id != ""
  }

  lemma {:induction false} ProtectCounts(protected: map<string, nat>, ids: seq<string>, id: string)
    requires Counting(protected)
    ensures Counting(Protect(protected, ids))
    ensures Count(Protect(protected, ids), id) == Count(protected, id) + if id == "" then 0 else multiset(ids)[id]
    decreases |ids|
  {
    if ids != [] {
      assert ids == [ids[0]] + ids[1..];
      ProtectCounts(if ids[0] == "" then protected else protected[ids[0] := Count(protected, ids[0]) + 1], ids[1..], id);
    }
  }

  lemma {:induction false} UnprotectCounts(protected: map<string, nat>, ids: seq<string>, id: string)
    requires Counting(protected)
    ensures Counting(Unprotect(protected, ids))
    ensures id != "" ==>
              Count(Unprotect(protected, ids), id)
              == if multiset(ids)[id] >= Count(protected, id) then 0 else Count(protected, id) - multiset(ids)[id]
    decreases |ids|
  {
    if ids != [] {
      assert ids == [ids[0]] + ids[1..];
      UnprotectCounts(UnprotectOne(protected, ids[0]), ids[1..], id);
    }
  }

  /** Giving up the protection a switch took leaves every other switch's counts as they were. */
  lemma UnprotectUndoesProtect(protected: map<string, nat>, ids: seq<string>)
    requires Counting(protected)
    ensures Unprotect(Protect(protected, ids), ids) == protected
  {
    var mid := Protect(protected, ids);
    var out := Unprotect(mid, ids);
    forall id ensures Count(out, id) == Count(protected, id) && Counting(out) {
      ProtectCounts(protected, ids, id);
      UnprotectCounts(mid, ids, id);
    }
    forall id ensures id in out <==> id in protected {
      assert Count(out, id) == Count(protected, id);
    }
    forall id | id in out ensures out[id] == protected[id] {
      assert Count(out, id) == Count(protected, id);
    }
  }

  // ---------- how a call ends ----------

  function ActiveSet(active: Option<nat>): set<nat> {
    if active.Some? then {active.value} else {}
  }

  // applyTerminalState, and the state recorded for a refused apply.
  function TerminalState(res: Systemd.ApplyResult): RowState {
    match res
    case InFlight => RolledBack
    case RolledBack(_) => RolledBack
    case Failed(_) => Failed
    case Observing => Confirmed
    case Confirmed => Confirmed
  }

  // stranded: not confirmed, and yet the exit asked for is the active one.
  datatype CallOutcome =
    | Refused
    | Rejected(stranded: bool)
    | Ended(row: nat, state: RowState, stranded: bool)
    | Watching(row: nat, watch: Systemd.Observation<Config>)

  // What a call comes to when nothing fails: refused by a busy driver and rolled back, observed, or confirmed.
  predicate ByPlane(out: CallOutcome, busy: bool, observes: bool) {
    if busy then out.Ended? && out.state.RolledBack?
    else if observes then out.Watching?
    else IsConfirmed(out)
  }

  predicate IsConfirmed(out: CallOutcome) {
    out.Ended? && out.state.Confirmed?
  }

  // What an ended call has made of the host; None is the NoOp driver's.
  ghost predicate PlaneEnds(h: Option<Systemd.Host<Config>>, cfg: Config, state: RowState,
                            h': Option<Systemd.Host<Config>>) {
    if h.None? then h'.None?
    else
      h'.Some? &&
      match state
      case Confirmed => h'.value == Systemd.InSync(cfg)
      case RolledBack => h'.value.disk == h.value.disk && h'.value.loaded in {h.value.loaded, h.value.disk}
      case Failed => Systemd.EachFrom(h'.value.disk, h.value.disk, Systemd.AllRendered(cfg))
      case Submitted => false
  }

  // What commitRuleApply makes of the active version, the published table and the in-flight entry.
  predicate CommitMakes(snapshot: nat, active: set<nat>, published: seq<Rule>, inflight: map<nat, RuleInfo>, ok: bool,
                        active': set<nat>, published': seq<Rule>, inflight': map<nat, RuleInfo>) {
    if ok && snapshot in inflight && !inflight[snapshot].committed then
      var info := inflight[snapshot];
      active' == {info.target} && published' == info.targetTable
      && inflight' == inflight[snapshot := info.(committed := true)]
    else
      ok == (snapshot in inflight && inflight[snapshot].committed)
      && active' == active && published' == published && inflight' == inflight
  }

  // What the observer's call for a rules apply makes of the active version and the published table.
  predicate RuleHealthEnds(info: RuleInfo, res: Systemd.ApplyResult, state: RowState, active: set<nat>,
                           published: seq<Rule>, active': set<nat>, published': seq<Rule>) {
    var same := active' == active && published' == published;
    match res
    case RolledBack(_) =>
      state.RolledBack?
      && (same || (info.committed && active' == ActiveSet(info.prior) && published' == info.priorTable))
    case Confirmed =>
      if info.committed then state.Confirmed? && same
      else if state.Confirmed? then active' == {info.target} && published' == info.targetTable
      else !state.Submitted? && same
    case _ => state.Failed? && same
  }

  // The version in force can be read back into a config.
  predicate AllParse(versions: map<nat, Version>, active: set<nat>) {
    forall v :: v in active && v in versions ==> versions[v].rules.Some?
  }

  // A stored version of that snapshot that parses, asked for by a caller who names no other snapshot as the one in force.
  predicate Applicable(versions: map<nat, Version>, active: set<nat>, snapshot: nat, target: nat, prevSnapshot: nat) {
    && target in versions && versions[target].snapshot == snapshot && versions[target].rules.Some?
    && AllParse(versions, active)
    && (prevSnapshot == 0
        || forall v :: v in active && v in versions ==> versions[v].snapshot == 0 || versions[v].snapshot == prevSnapshot)
  }

  lemma TableWhenApplicable(versions: map<nat, Version>, active: set<nat>, snapshot: nat, target: nat, prevSnapshot: nat)
    requires Applicable(versions, active, snapshot, target, prevSnapshot)
    ensures target in versions && versions[target].rules.Some?
    ensures TableOf(versions, Some(target)) == ScanOrder(versions[target].rules.value)
    ensures RulesOf(versions, Some(target)) == versions[target].rules.value
  {
  }

  // ---------- what a switch makes of what it can touch ----------

  // db: statements the database has not taken; switches: the switches among them; plane: steps on the host that failed;
  // hard: of these, the driver's snapshot and its ways back.
  datatype FaultCounts = FaultCounts(db: nat, switches: nat, plane: nat, hard: nat)

  datatype Sight = Sight(
    exits: Exits, versions: map<nat, Version>, current: Option<nat>, published: seq<Rule>, inflight: map<nat, RuleInfo>,
    switchInflight: map<nat, SwitchInfo>, rows: seq<StatusRow>, plane: Option<Systemd.Host<Config>>, busy: bool,
    faults: FaultCounts)

  // Confirmed moves version and table to the target; every other end, and every call that is turned away, leaves both.
  predicate RulesMove(b: Sight, b': Sight, out: CallOutcome, target: nat) {
    && b'.versions == b.versions && b'.exits == b.exits && b'.switchInflight == b.switchInflight
    && (IsConfirmed(out) ==>
          && b'.current == Some(target) && target in b.versions && b.versions[target].rules.Some?
          && b'.published == ScanOrder(b.versions[target].rules.value))
    && (!IsConfirmed(out) ==> b'.current == b.current && b'.published == b.published)
    && !LeftStranded(out)
  }

  // The row, the entry and the host.
  ghost predicate RulesLeave(b: Sight, b': Sight, out: CallOutcome, snapshot: nat, target: nat) {
    var cfg := Config(RulesOf(b.versions, Some(target)), b.exits.active);
    var row := StatusRow(snapshot, Submitted, 0);
    && b'.busy == (b.busy || out.Watching?)
    && (out.Refused? || out.Rejected? ==> b'.rows == b.rows && b'.inflight == b.inflight && b'.plane == b.plane)
    && (out.Ended? || out.Watching? ==> out.row == |b.rows|)
    && (out.Ended? ==>
          && b'.inflight == b.inflight - {snapshot} && !out.state.Submitted?
          && (exists ok :: b'.rows == UpdateRow(b.rows + [row], out.row, out.state, ok))
          && PlaneEnds(b.plane, cfg, out.state, b'.plane))
    && (out.Watching? ==>
          && b'.rows == b.rows + [row]
          && b'.inflight == b.inflight[snapshot := RuleInfo(out.row, target, b.current, TableOf(b.versions, Some(target)),
                                                            TableOf(b.versions, b.current), false)]
          && b.plane.Some? && out.watch == Systemd.Observation(cfg, b.plane.value.disk)
          && b'.plane == Some(Systemd.InSync(cfg)))
  }

  // Why the call ends as it does: only an applicable request gets past its reads; behind a busy driver rolled back;
  // failed exactly by a hard fault; and as the driver is set up when nothing fails.
  predicate RulesAnswer(b: Sight, b': Sight, out: CallOutcome, snapshot: nat, target: nat, prevSnapshot: nat,
                        observes: bool) {
    var applicable := Applicable(b.versions, ActiveSet(b.current), snapshot, target, prevSnapshot);
    && b'.faults.db >= b.faults.db
    && (out.Ended? || out.Watching? ==> applicable)
    && (out.Ended? && b.busy ==> out.state.RolledBack?)
    && (out.Ended? ==> (out.state.Failed? <==> b'.faults.hard > b.faults.hard))
    && (!out.Refused? && applicable && b'.faults.db == b.faults.db && b'.faults.plane == b.faults.plane ==>
          ByPlane(out, b.busy, observes))
  }

  ghost predicate RulesMake(b: Sight, b': Sight, out: CallOutcome, snapshot: nat, target: nat, prevSnapshot: nat,
                            observes: bool) {
    && RulesMove(b, b', out, target)
    && RulesLeave(b, b', out, snapshot, target)
    && RulesAnswer(b, b', out, snapshot, target, prevSnapshot, observes)
  }

  lemma NothingApplied(b: Sight, b': Sight, out: CallOutcome, snapshot: nat, target: nat, prevSnapshot: nat, observes: bool)
    requires b' == b.(faults := b'.faults) && b'.faults.db >= b.faults.db
    requires out == Refused
             || (out == Rejected(false)
                 && (!Applicable(b.versions, ActiveSet(b.current), snapshot, target, prevSnapshot)
                     || b'.faults.db > b.faults.db))
    ensures RulesMake(b, b', out, snapshot, target, prevSnapshot, observes)
  {
    hide Applicable, RulesOf, ScanOrder;
  }

  // From the row on.
  ghost predicate RulesDriven(m: Sight, b': Sight, out: CallOutcome, cfg: Config, row: nat, snapshot: nat,
                              observes: bool)
  {
    && row < |m.rows| && snapshot in m.inflight && (out.Ended? || out.Watching?) && out.row == row
    && b'.versions == m.versions && b'.exits == m.exits && b'.switchInflight == m.switchInflight
    && (IsConfirmed(out) ==>
          b'.current == Some(m.inflight[snapshot].target) && b'.published == m.inflight[snapshot].targetTable)
    && (!IsConfirmed(out) ==> b'.current == m.current && b'.published == m.published)
    && !LeftStranded(out)
    && b'.busy == (m.busy || out.Watching?)
    && (out.Ended? ==>
          && b'.inflight == m.inflight - {snapshot} && !out.state.Submitted?
          && (exists ok :: b'.rows == UpdateRow(m.rows, row, out.state, ok))
          && PlaneEnds(m.plane, cfg, out.state, b'.plane))
    && (out.Watching? ==>
          && b'.rows == m.rows && b'.inflight == m.inflight
          && m.plane.Some? && out.watch == Systemd.Observation(cfg, m.plane.value.disk)
          && b'.plane == Some(Systemd.InSync(cfg)))
    && b'.faults.db >= m.faults.db
    && (out.Ended? && m.busy ==> out.state.RolledBack?)
    && (out.Ended? ==> (out.state.Failed? <==> b'.faults.hard > m.faults.hard))
    && (b'.faults.db == m.faults.db && b'.faults.plane == m.faults.plane && m.inflight[snapshot].target in m.versions ==>
          ByPlane(out, m.busy, observes))
  }

  lemma RulesTogether(b: Sight, m: Sight, b': Sight, out: CallOutcome, cfg: Config, row: nat, snapshot: nat, target: nat,
                      prevSnapshot: nat, observes: bool)
    requires Applicable(b.versions, ActiveSet(b.current), snapshot, target, prevSnapshot) && row == |b.rows|
    requires cfg == Config(RulesOf(b.versions, Some(target)), b.exits.active)
    requires m == b.(rows := b.rows + [StatusRow(snapshot, Submitted, 0)],
                     inflight := b.inflight[snapshot := NewInfo(b.versions, row, target, b.current)])
    requires RulesDriven(m, b', out, cfg, row, snapshot, observes)
    ensures RulesMake(b, b', out, snapshot, target, prevSnapshot, observes)
  {
    TableWhenApplicable(b.versions, ActiveSet(b.current), snapshot, target, prevSnapshot);
    hide RulesOf, TableOf, UpdateRow, PlaneEnds, ByPlane, ScanOrder;
    assert m.inflight - {snapshot} == b.inflight - {snapshot};
  }

  // What a driver with the commit callback has said, before its word is recorded.
  ghost predicate RulesSpoken(m: Sight, d: Sight, cfg: Config, res: Systemd.ApplyResult,
                              watch: Systemd.Observation<Config>, snapshot: nat, observes: bool)
  {
    && snapshot in m.inflight
    && d == m.(current := d.current, published := d.published, inflight := d.inflight, plane := d.plane, busy := d.busy,
               faults := d.faults)
    && d.inflight - {snapshot} == m.inflight - {snapshot} && d.faults.db >= m.faults.db
    && (if res.Confirmed?
        then d.current == Some(m.inflight[snapshot].target) && d.published == m.inflight[snapshot].targetTable
             && snapshot in d.inflight && d.inflight[snapshot].committed
        else d.current == m.current && d.published == m.published && d.inflight == m.inflight)
    && d.busy == (m.busy || res.Observing?)
    && (res.InFlight? <==> m.busy) && (res.Failed? <==> d.faults.hard > m.faults.hard)
    && ((d.faults.db == m.faults.db && d.faults.plane == m.faults.plane && m.inflight[snapshot].target in m.versions
         && !m.busy) ==> if observes then res.Observing? else res.Confirmed?)
    && (if res.Observing?
        then m.plane.Some? && d.plane == Some(Systemd.InSync(cfg))
             && watch == Systemd.Observation(cfg, m.plane.value.disk)
        else PlaneEnds(m.plane, cfg, if res.Failed? then Failed else if res.Confirmed? then Confirmed else RolledBack,
                       d.plane))
  }

  lemma RulesComeOut(m: Sight, d: Sight, b': Sight, cfg: Config, res: Systemd.ApplyResult,
                     watch: Systemd.Observation<Config>, state: RowState, snapshot: nat, row: nat, observes: bool)
    requires RulesSpoken(m, d, cfg, res, watch, snapshot, observes) && row < |m.rows| && !res.Observing?
    requires state == if res.Failed? then Failed else if res.Confirmed? then Confirmed else RolledBack
    requires b' == d.(rows := b'.rows, inflight := d.inflight - {snapshot}, faults := d.faults.(db := b'.faults.db))
    requires b'.faults.db >= d.faults.db && (exists ok :: b'.rows == UpdateRow(d.rows, row, state, ok))
    ensures RulesDriven(m, b', Ended(row, state, false), cfg, row, snapshot, observes)
  {
    hide PlaneEnds, UpdateRow;
  }

  lemma RulesWatched(m: Sight, d: Sight, cfg: Config, watch: Systemd.Observation<Config>, snapshot: nat, row: nat,
                     observes: bool)
    requires RulesSpoken(m, d, cfg, Systemd.Observing, watch, snapshot, observes) && row < |m.rows|
    ensures RulesDriven(m, d, Watching(row, watch), cfg, row, snapshot, observes)
  {
    hide PlaneEnds, UpdateRow;
  }

  // Versions and table stay. The target is active afterwards exactly when the call is confirmed, watching or stranded;
  // from an active exit that is stranded takes a fault in putting it back, and does not end rolled back.
  predicate SwitchMovesExit(b: Sight, b': Sight, out: CallOutcome, exitID: string) {
    && b'.versions == b.versions && b'.current == b.current && b'.published == b.published && b'.inflight == b.inflight
    && b'.exits.present == b.exits.present
    && b'.exits.active == (if OnTarget(out) then {exitID} else b.exits.active)
    && (OnTarget(out) ==> exitID in b.exits.present)
    && (b.exits.active != {} && LeftStranded(out) ==> b'.faults.switches > b.faults.switches)
    && (b.exits.active != {} && out.Ended? && out.stranded ==> out.state.Failed?)
    && (b.exits.active == {} && out.Ended? && !out.state.Confirmed? ==> out.stranded)
  }

  // The row, the entry and the host.
  ghost predicate SwitchLeaves(b: Sight, b': Sight, out: CallOutcome, exitID: string, snapshot: nat) {
    var cfg := Config(RulesOf(b.versions, b.current), {exitID});
    var row := StatusRow(snapshot, Submitted, 0);
    && b'.busy == (b.busy || out.Watching?)
    && (out.Refused? || out.Rejected? ==> b'.rows == b.rows && b'.switchInflight == b.switchInflight && b'.plane == b.plane)
    && (out.Ended? || out.Watching? ==> out.row == |b.rows|)
    && (out.Ended? ==>
          && b'.switchInflight == b.switchInflight - {snapshot} && !out.state.Submitted?
          && (exists ok :: b'.rows == UpdateRow(b.rows + [row], out.row, out.state, ok))
          && PlaneEnds(b.plane, cfg, out.state, b'.plane))
    && (out.Watching? ==>
          && b'.rows == b.rows + [row] && snapshot in b'.switchInflight
          && b'.switchInflight == b.switchInflight[snapshot := b'.switchInflight[snapshot]]
          && b'.switchInflight[snapshot].row == out.row && b'.switchInflight[snapshot].to == exitID
          && b.exits.active == (if b'.switchInflight[snapshot].from == "" then {} else {b'.switchInflight[snapshot].from})
          && b.plane.Some? && out.watch == Systemd.Observation(cfg, b.plane.value.disk)
          && b'.plane == Some(Systemd.InSync(cfg)))
  }

  // Why the call ends as it does: never without the exit or over a malformed version; behind a busy driver rolled back,
  // unless the prior exit could not be put back; failed exactly by a hard fault or by that one; and as the driver
  // is set up when nothing fails.
  predicate SwitchAnswers(b: Sight, b': Sight, out: CallOutcome, exitID: string, observes: bool) {
    && b'.faults.db >= b.faults.db && b'.faults.switches >= b.faults.switches
    && (out.Ended? || out.Watching? ==> exitID in b.exits.present && AllParse(b.versions, ActiveSet(b.current)))
    && (out.Ended? && b.busy ==> out.state.RolledBack? || (out.state.Failed? && out.stranded))
    && (out.Ended? ==>
          (out.state.Failed? <==> b'.faults.hard > b.faults.hard || b'.faults.switches > b.faults.switches))
    && (!out.Refused? && exitID in b.exits.present && AllParse(b.versions, ActiveSet(b.current))
        && b'.faults.db == b.faults.db && b'.faults.plane == b.faults.plane ==>
          ByPlane(out, b.busy, observes))
  }

  ghost predicate SwitchMakes(b: Sight, b': Sight, out: CallOutcome, exitID: string, snapshot: nat, observes: bool) {
    && SwitchMovesExit(b, b', out, exitID)
    && SwitchLeaves(b, b', out, exitID, snapshot)
    && SwitchAnswers(b, b', out, exitID, observes)
  }

  // The switch in the database, the config, the row and the entry: without any fault.
  predicate SwitchOpened(b: Sight, m: Sight, cfg: Config, row: nat, prior: string, exitID: string, snapshot: nat) {
    && exitID in b.exits.present && AllParse(b.versions, ActiveSet(b.current)) && row == |b.rows|
    && cfg == Config(RulesOf(b.versions, b.current), {exitID})
    && m == b.(exits := Exits(b.exits.present, {exitID}), rows := b.rows + [StatusRow(snapshot, Submitted, 0)],
               switchInflight := b.switchInflight[snapshot := SwitchInfo(row, exitID, prior)])
  }

  predicate SwitchNotOpened(b: Sight, m: Sight, stranded: bool, prior: string, exitID: string) {
    && m == b.(exits := Exits(b.exits.present, if stranded then {exitID} else b.exits.active), faults := m.faults)
    && m.faults.db >= b.faults.db && m.faults.switches >= b.faults.switches
    && (stranded ==> exitID in b.exits.present)
    && (stranded && prior != "" ==> m.faults.switches > b.faults.switches)
    && (exitID in b.exits.present && AllParse(b.versions, ActiveSet(b.current)) ==> m.faults.db > b.faults.db)
  }

  ghost predicate SwitchDriven(m: Sight, b': Sight, out: CallOutcome, cfg: Config, row: nat, prior: string,
                               exitID: string, snapshot: nat, observes: bool) {
    && (out.Ended? || out.Watching?) && out.row == row < |m.rows|
    && b'.versions == m.versions && b'.current == m.current && b'.published == m.published && b'.inflight == m.inflight
    && b'.exits == Exits(m.exits.present, if OnTarget(out) then {exitID} else {prior})
    && (prior == "" && out.Ended? && !out.state.Confirmed? ==> out.stranded)
    && (prior != "" && LeftStranded(out) ==> out.state.Failed? && b'.faults.switches > m.faults.switches)
    && b'.busy == (m.busy || out.Watching?)
    && (out.Ended? ==>
          && b'.switchInflight == m.switchInflight - {snapshot} && !out.state.Submitted?
          && (exists ok :: b'.rows == UpdateRow(m.rows, row, out.state, ok))
          && PlaneEnds(m.plane, cfg, out.state, b'.plane))
    && (out.Watching? ==>
          && b'.rows == m.rows && b'.switchInflight == m.switchInflight
          && m.plane.Some? && out.watch == Systemd.Observation(cfg, m.plane.value.disk)
          && b'.plane == Some(Systemd.InSync(cfg)))
    && b'.faults.db >= m.faults.db && b'.faults.switches >= m.faults.switches
    && (out.Ended? && m.busy ==> out.state.RolledBack? || (out.state.Failed? && out.stranded))
    && (out.Ended? ==> (out.state.Failed? <==> b'.faults.hard > m.faults.hard || b'.faults.switches > m.faults.switches))
    && (b'.faults.db == m.faults.db && b'.faults.plane == m.faults.plane ==> ByPlane(out, m.busy, observes))
  }

  ghost predicate SwitchSettled(d: Sight, b': Sight, spoken: RowState, state: RowState, stranded: bool, prior: string,
                                exitID: string, snapshot: nat, row: nat) {
    && row < |d.rows|
    && b' == d.(exits := Exits(d.exits.present, if spoken.Confirmed? || stranded then {exitID} else {prior}),
                rows := b'.rows, switchInflight := d.switchInflight - {snapshot},
                faults := d.faults.(db := b'.faults.db, switches := b'.faults.switches))
    && (exists ok :: b'.rows == UpdateRow(d.rows, row, state, ok))
    && b'.faults.db >= d.faults.db
    && b'.faults.switches == d.faults.switches + (if !spoken.Confirmed? && prior != "" && stranded then 1 else 0)
    && (stranded ==> !spoken.Confirmed?) && (prior == "" && !spoken.Confirmed? ==> stranded)
    && state == (if b'.faults.switches > d.faults.switches then Failed else spoken)
    && (b'.faults.switches > d.faults.switches ==> b'.faults.db > d.faults.db)
  }

  lemma SwitchComesOut(m: Sight, d: Sight, b': Sight, cfg: Config, res: Systemd.ApplyResult, state: RowState,
                       stranded: bool, prior: string, exitID: string, snapshot: nat, row: nat, observes: bool)
    requires d == m.(plane := d.plane, busy := d.busy, faults := d.faults) && m.exits.active == {exitID}
    requires d.faults.db == m.faults.db && d.faults.switches == m.faults.switches && !res.Observing? && d.busy == m.busy
    requires PlaneEnds(m.plane, cfg, state, d.plane)
    requires (res.InFlight? <==> m.busy) && (res.Failed? <==> d.faults.hard > m.faults.hard)
    requires d.faults.plane == m.faults.plane && !m.busy ==> !observes && res.Confirmed?
    requires SwitchSettled(d, b', if res.Failed? then Failed else if res.Confirmed? then Confirmed else RolledBack,
                           state, stranded, prior, exitID, snapshot, row)
    ensures SwitchDriven(m, b', Ended(row, state, stranded), cfg, row, prior, exitID, snapshot, observes)
  {
    hide PlaneEnds, UpdateRow, RulesOf;
  }

  lemma SwitchTogether(b: Sight, m: Sight, b': Sight, out: CallOutcome, cfg: Config, row: nat, prior: string,
                       exitID: string, snapshot: nat, observes: bool)
    requires b.exits.active == if prior == "" then {} else {prior}
    requires SwitchOpened(b, m, cfg, row, prior, exitID, snapshot)
    requires SwitchDriven(m, b', out, cfg, row, prior, exitID, snapshot, observes)
    ensures SwitchMakes(b, b', out, exitID, snapshot, observes)
    ensures out.Watching? ==> snapshot in b'.switchInflight && b'.switchInflight[snapshot].from == prior
  {
    hide AllParse, RulesOf, UpdateRow, PlaneEnds, ByPlane;
    assert m.switchInflight - {snapshot} == b.switchInflight - {snapshot};
  }

  lemma SwitchTurnedDown(b: Sight, m: Sight, stranded: bool, prior: string, exitID: string, snapshot: nat, observes: bool)
    requires b.exits.active == if prior == "" then {} else {prior}
    requires SwitchNotOpened(b, m, stranded, prior, exitID)
    ensures SwitchMakes(b, m, Rejected(stranded), exitID, snapshot, observes)
  {
    hide AllParse, RulesOf, UpdateRow, PlaneEnds;
  }

  lemma NothingSwitched(b: Sight, b': Sight, out: CallOutcome, exitID: string, snapshot: nat, observes: bool)
    requires b' == b.(faults := b'.faults) && b'.faults.switches == b.faults.switches
    requires out == Refused || (out == Rejected(false) && (exitID !in b.exits.present || b'.faults.db > b.faults.db))
    requires b'.faults.db >= b.faults.db
    ensures SwitchMakes(b, b', out, exitID, snapshot, observes)
  {
    hide AllParse, RulesOf;
  }

  // ---------- the object ----------

  // rest is order with one occurrence of id taken out.
  ghost predicate CutOut(order: seq<nat>, id: nat, rest: seq<nat>) {
    exists i :: 0 <= i < |order| && order[i] == id && rest == order[..i] + order[i + 1..]
  }

  const TERMINAL_CACHE_CAP: nat := 128

  class Applier {
    const exits: ExitStore
    const versions: RuleVersions
    const statuses: ApplyStatus
    const systemd: Systemd.Systemd?<Config>       // null stands for the NoOp driver
    var published: seq<Rule>
    var inflight: map<nat, RuleInfo>
    var switchInflight: map<nat, SwitchInfo>
    var protectedExits: map<string, nat>
    var terminalStatus: map<nat, RowState>
    var terminalOrder: seq<nat>
    var variationActive: bool
    ghost var snapshotFaults: nat                 // snapshots the database has not taken

    ghost predicate CacheValid()
      reads this`terminalStatus, this`terminalOrder
    {
      && (forall i, j :: 0 <= i < j < |terminalOrder| ==> terminalOrder[i] != terminalOrder[j])
      && (forall id :: id in terminalOrder <==> id in terminalStatus)
      && |terminalOrder| <= TERMINAL_CACHE_CAP
    }

    ghost predicate Valid()
      reads this, exits, versions, systemd
    {
      Counting(protectedExits) && exits.Valid() && versions.Valid() && CacheValid() && (systemd != null ==> systemd.Valid())
    }

    function Plane(): Option<Systemd.Host<Config>>
      reads systemd
    {
      if systemd == null then None else Some(systemd.View())
    }

    predicate Busy()
      reads systemd
    {
      systemd != null && systemd.applying
    }

    // The driver leaves the verdict to a health observation.
    predicate Observes() {
      systemd != null && systemd.hasHealthCheck
    }

    // Statements the database has not taken, whoever asked for them.
    ghost function Faults(): nat
      reads this`snapshotFaults, exits`faults, versions`faults, statuses`faults
    {
      snapshotFaults + exits.faults + versions.faults + statuses.faults
    }

    ghost function See(): (sight: Sight)
      requires versions.Valid()
      ensures sight.exits == exits.View()
      reads this`published, this`inflight, this`switchInflight, this`snapshotFaults
      reads exits`rows, exits`faults, exits`switchFaults, versions`versions, versions`active, versions`faults
      reads statuses`rows, statuses`faults, systemd
    {
      Sight(exits.View(), versions.versions, versions.Current(), published, inflight, switchInflight, statuses.rows,
            Plane(), Busy(),
            FaultCounts(Faults(), exits.switchFaults, if systemd == null then 0 else systemd.faults,
                        if systemd == null then 0 else systemd.snapFaults + systemd.backFaults))
    }

    // Nothing under the driver has failed.
    twostate predicate PlaneWell()
      reads systemd
    {
      systemd != null ==> systemd.faults == old(systemd.faults)
    }

    // The driver could not take its snapshot, or its way back met a fault.
    twostate predicate PlaneFailed()
      reads systemd
    {
      systemd != null
      && (systemd.snapFaults > old(systemd.snapFaults) || systemd.backFaults > old(systemd.backFaults))
    }

    constructor (e: ExitStore, v: RuleVersions, s: ApplyStatus, d: Systemd.Systemd?<Config>, table: seq<Rule>)
      requires e.Valid() && v.Valid() && (d != null ==> d.Valid())
      ensures Valid() && !variationActive && inflight == map[] && switchInflight == map[] && protectedExits == map[]
      ensures exits == e && versions == v && statuses == s && systemd == d && published == table
    {
      exits, versions, statuses, systemd, published := e, v, s, d, table;
      inflight, switchInflight, protectedExits := map[], map[], map[];
      terminalStatus, terminalOrder := map[], [];
      variationActive := false;
      snapshotFaults := 0;
    }

    method BeginVariation() returns (ok: bool)
      modifies this`variationActive
      ensures variationActive && ok == !old(variationActive)
    {
      if variationActive {
        return false;
      }
      variationActive := true;
      return true;
    }

    method EndVariation()
      modifies this`variationActive
      ensures !variationActive
    {
      variationActive := false;
    }

    method ProtectSwitchExits(ids: seq<string>)
      requires Valid()
      modifies this`protectedExits
      ensures Valid() && protectedExits == Protect(old(protectedExits), ids)
    {
      for i := 0 to |ids|
        invariant Counting(protectedExits)
        invariant Protect(protectedExits, ids[i..]) == Protect(old(protectedExits), ids)
      {
        assert ids[i..][1..] == ids[i + 1..];
        if ids[i] != "" {
          protectedExits := protectedExits[ids[i] := Count(protectedExits, ids[i]) + 1];
        }
      }
      assert ids[|ids|..] == [];
    }

    method UnprotectSwitchExits(ids: seq<string>)
      requires Valid()
      modifies this`protectedExits
      ensures Valid() && protectedExits == Unprotect(old(protectedExits), ids)
    {
      for i := 0 to |ids|
        invariant Counting(protectedExits)
        invariant Unprotect(protectedExits, ids[i..]) == Unprotect(old(protectedExits), ids)
      {
        assert ids[i..][1..] == ids[i + 1..];
        if ids[i] == "" {
          continue;
        }
        if Count(protectedExits, ids[i]) <= 1 {
          protectedExits := protectedExits - {ids[i]};
        } else {
          protectedExits := protectedExits[ids[i] := protectedExits[ids[i]] - 1];
        }
      }
      assert ids[|ids|..] == [];
    }

    method TakeSwitchInflight(snapshot: nat) returns (info: Option<SwitchInfo>)
      modifies this`switchInflight
      ensures info == if snapshot in old(switchInflight) then Some(old(switchInflight)[snapshot]) else None
      ensures switchInflight == old(switchInflight) - {snapshot}
    {
      info := if snapshot in switchInflight then Some(switchInflight[snapshot]) else None;
      switchInflight := switchInflight - {snapshot};
    }

    /** Refused for either side of a switch in flight; never removes the active exit. */
    method DeleteExit(id: string) returns (inFlight: bool, err: Option<StoreError>)
      requires Valid()
      modifies exits`rows, exits`faults
      ensures Valid()
      ensures !inFlight && exits.faults == old(exits.faults) ==>
                err == if id !in old(exits.View()).present then Some(NotFound)
                       else if id in old(exits.View()).active then Some(IsActive) else None
      ensures inFlight <==> Count(protectedExits, id) > 0
      ensures inFlight || err.Some? ==> exits.rows == old(exits.rows)
      ensures !inFlight && err == None ==>
                exits.View() == Exits(old(exits.View()).present - {id}, old(exits.View()).active)
                && id !in old(exits.View()).active
    {
      if Count(protectedExits, id) > 0 {
        return true, None;
      }
      err := exits.Delete(id);
      inFlight := false;
    }

    /** Moves the active version and the published table together, once; a second call changes nothing. */
    method CommitRuleApply(snapshot: nat) returns (ok: bool)
      requires Valid()
      modifies this`published, this`inflight, versions`active, versions`faults
      ensures Valid() && versions.versions == old(versions.versions)
      ensures versions.faults >= old(versions.faults)
      ensures snapshot in old(inflight) && old(inflight)[snapshot].committed ==> versions.faults == old(versions.faults)
      ensures (snapshot in old(inflight) && old(inflight)[snapshot].target in versions.versions
               && versions.faults == old(versions.faults)) ==> ok
      ensures CommitMakes(snapshot, old(versions.active), old(published), old(inflight), ok,
                          versions.active, published, inflight)
    {
      if snapshot !in inflight {
        return false;
      }
      var info := inflight[snapshot];
      if info.committed {
        return true;
      }
      var err := versions.SetActiveRuleVersion(info.target);
      if err.Some? {
        return false;
      }
      published := info.targetTable;
      inflight := inflight[snapshot := info.(committed := true)];
      return true;
    }

    /** Takes both back together, and only what was committed. */
    method RollbackRuleApply(snapshot: nat)
      requires Valid()
      modifies this`published, this`inflight, versions`active, versions`faults
      ensures Valid() && versions.versions == old(versions.versions)
      ensures versions.faults >= old(versions.faults)
      ensures snapshot in old(inflight) && old(inflight)[snapshot].committed && versions.faults == old(versions.faults)
              && (old(inflight)[snapshot].prior.None? || old(inflight)[snapshot].prior.value in versions.versions) ==>
                snapshot in inflight && !inflight[snapshot].committed
      ensures snapshot !in old(inflight) || !old(inflight)[snapshot].committed ==>
                versions.active == old(versions.active) && published == old(published) && inflight == old(inflight)
      ensures snapshot in old(inflight) && old(inflight)[snapshot].committed ==>
                var info := old(inflight)[snapshot];
                || (versions.active == old(versions.active) && published == old(published) && inflight == old(inflight))
                || (versions.active == (if info.prior.Some? then {info.prior.value} else {})
                    && published == info.priorTable
                    && inflight == old(inflight)[snapshot := info.(committed := false)])
    {
      if snapshot !in inflight {
        return;
      }
      var info := inflight[snapshot];
      if !info.committed {
        return;
      }
      var ok;
      if info.prior.None? {
        ok := versions.ClearActiveRuleVersion();
      } else {
        var err := versions.SetActiveRuleVersion(info.prior.value);
        ok := err.None?;
      }
      if !ok {
        return;
      }
      published := info.priorTable;
      inflight := inflight[snapshot := info.(committed := false)];
    }

    /** A prior exit of "" is left alone; a failed restore turns the terminal state into failed. */
    method CompensateSwitch(prior: string, terminal: RowState) returns (state: RowState, restored: bool)
      requires Valid()
      modifies exits
      ensures Valid()
      ensures exists ok :: (exits.View(), restored) == Compensated(old(exits.View()), prior, ok)
      ensures state == if restored then terminal else Failed
      ensures prior == "" || !restored ==> exits.rows == old(exits.rows)
      ensures Ids(exits.rows) == old(Ids(exits.rows))
      ensures prior == "" ==> exits.switchFaults == old(exits.switchFaults)
      ensures prior in old(Ids(exits.rows)) ==>
                exits.switchFaults == old(exits.switchFaults) + if restored then 0 else 1
      ensures exits.faults - old(exits.faults) == exits.switchFaults - old(exits.switchFaults) >= 0
    {
      state, restored := terminal, true;
      if prior != "" {
        var err := exits.Switch(prior);
        if err.Some? {
          state, restored := Failed, false;
        }
      }
      assert (exits.View(), restored) == Compensated(old(exits.View()), prior, restored);
    }

    /** The fallback keeps the newest statuses, at most 128 of them. */
    method RecordTerminalStatus(snapshot: nat, state: RowState)
      requires CacheValid()
      modifies this`terminalStatus, this`terminalOrder
      ensures CacheValid()
      ensures snapshot in terminalStatus && terminalStatus[snapshot] == state
      ensures terminalOrder
              == if snapshot in old(terminalStatus) then old(terminalOrder)
                 else if |old(terminalOrder)| < 128 then old(terminalOrder) + [snapshot]
                 else old(terminalOrder)[1..] + [snapshot]
      ensures snapshot in old(terminalStatus) || |old(terminalOrder)| < 128 ==>
                terminalStatus == old(terminalStatus)[snapshot := state]
      ensures snapshot !in old(terminalStatus) && |old(terminalOrder)| == 128 ==>
                terminalStatus == old(terminalStatus)[snapshot := state] - {old(terminalOrder)[0]}
    {
      if snapshot !in terminalStatus {
        terminalOrder := terminalOrder + [snapshot];
      }
      terminalStatus := terminalStatus[snapshot := state];
      ghost var order, status := terminalOrder, terminalStatus;
      assert forall id :: id in order <==> id in status;
      while |terminalOrder| > TERMINAL_CACHE_CAP
        invariant (terminalOrder == order && terminalStatus == status)
                  || (|order| > TERMINAL_CACHE_CAP && |terminalOrder| == TERMINAL_CACHE_CAP
                      && terminalOrder == order[1..] && terminalStatus == status - {order[0]})
        decreases |terminalOrder|
      {
        var oldest := terminalOrder[0];
        assert terminalOrder == [oldest] + terminalOrder[1..];
        terminalOrder := terminalOrder[1..];
        terminalStatus := terminalStatus - {oldest};
      }
      if |order| > 128 {
        assert order == old(terminalOrder) + [snapshot];
        assert order[1..] == old(terminalOrder)[1..] + [snapshot] && order[0] == old(terminalOrder)[0];
      }
    }

    method ClearTerminalStatus(snapshot: nat)
      requires CacheValid()
      modifies this`terminalStatus, this`terminalOrder
      ensures CacheValid() && terminalStatus == old(terminalStatus) - {snapshot}
      ensures snapshot !in old(terminalStatus) ==> terminalOrder == old(terminalOrder)
      ensures snapshot in old(terminalStatus) ==> CutOut(old(terminalOrder), snapshot, terminalOrder)
    {
      if snapshot !in terminalStatus {
        return;
      }
      terminalStatus := terminalStatus - {snapshot};
      ghost var order := terminalOrder;
      for i := 0 to |terminalOrder|
        invariant terminalOrder == order && snapshot !in order[..i]
      {
        if terminalOrder[i] == snapshot {
          terminalOrder := terminalOrder[..i] + terminalOrder[i + 1..];
          break;
        }
      }
    }

    /** A terminal state the database did not take is served from the fallback instead. */
    method PersistApplyStatus(row: nat, snapshot: nat, state: RowState)
      requires CacheValid() && row < |statuses.rows|
      modifies this`terminalStatus, this`terminalOrder, statuses
      ensures CacheValid() && statuses.faults >= old(statuses.faults)
      ensures |statuses.rows| == |old(statuses.rows)| && statuses.rows[row].snapshot == old(statuses.rows)[row].snapshot
      ensures statuses.rows[row].attempts == old(statuses.rows)[row].attempts + 1
      ensures statuses.faults == old(statuses.faults) ==> statuses.rows[row].state == state
      ensures statuses.faults > old(statuses.faults) ==> statuses.rows[row].state == old(statuses.rows)[row].state
      ensures exists ok :: statuses.rows == UpdateRow(old(statuses.rows), row, state, ok)
                           && (if ok then snapshot !in terminalStatus
                               else snapshot in terminalStatus && terminalStatus[snapshot] == state)
      ensures old(IsOpen(row, snapshot)) ==> Told(row) == state
    {
      var ok := statuses.UpdateApplyStatus(row, state);
      if !ok {
        RecordTerminalStatus(snapshot, state);
      } else {
        ClearTerminalStatus(snapshot);
      }
      assert statuses.rows == UpdateRow(old(statuses.rows), row, state, ok);
    }

    // What a client that asks for a row's state is told: the fallback speaks for a row still submitted.
    function Told(row: nat): RowState
      requires row < |statuses.rows|
      reads this`terminalStatus, statuses`rows
    {
      var r := statuses.rows[row];
      if r.state.Submitted? && r.snapshot in terminalStatus then terminalStatus[r.snapshot] else r.state
    }

    // Its row is open.
    predicate IsOpen(row: nat, snapshot: nat)
      reads statuses`rows
    {
      row < |statuses.rows| && statuses.rows[row].state.Submitted? && statuses.rows[row].snapshot == snapshot
    }

    // ---------- reading ----------

    method ReadActive() returns (prior: Option<nat>, ok: bool)
      requires Valid()
      modifies versions`faults
      ensures versions.faults == old(versions.faults) + if ok then 0 else 1
      ensures ok ==> prior == versions.Current()
    {
      ok := *;
      versions.faults := versions.faults + if ok then 0 else 1;
      prior := None;
      if versions.active != {} {
        var id :| id in versions.active;
        prior := Some(id);
      }
    }

    /** The rules of the active version and the exits as they are; fails exactly on a read error or a malformed version. */
    method Assemble() returns (cfg: Option<Config>)
      requires Valid()
      modifies versions`faults, exits`faults
      ensures Valid() && versions.faults >= old(versions.faults) && exits.faults >= old(exits.faults)
      ensures cfg.Some? ==> cfg.value == Config(RulesOf(versions.versions, versions.Current()), exits.View().active)
      ensures cfg.Some? <==> AllParse(versions.versions, versions.active) && versions.faults == old(versions.faults) && exits.faults == old(exits.faults)
    {
      var active, ok := ReadActive();
      if !ok {
        return None;
      }
      if active.Some? && active.value in versions.versions && versions.versions[active.value].rules.None? {
        assert active.value in versions.active;
        return None;
      }
      var list;
      list, ok := exits.List();
      if !ok {
        return None;
      }
      return Some(Config(RulesOf(versions.versions, active), ActiveIds(list)));
    }

    /** The plan of a rules apply: the target version read and checked, what was active before, and the config. There is
        one exactly when the request is applicable and every read worked. */
    method Plan(snapshot: nat, ruleVersion: nat, prevSnapshot: nat) returns (plan: Option<(Option<nat>, Config)>)
      requires Valid()
      modifies versions`faults, exits`faults
      ensures Valid() && versions.faults >= old(versions.faults) && exits.faults >= old(exits.faults)
      ensures plan.Some? <==>
                && Applicable(versions.versions, versions.active, snapshot, ruleVersion, prevSnapshot)
                && versions.faults == old(versions.faults) && exits.faults == old(exits.faults)
      ensures plan.Some? ==>
                && plan.value.0 == versions.Current()
                && plan.value.1 == Config(versions.versions[ruleVersion].rules.value, exits.View().active)
    {
      var read := *;
      if !read {
        versions.faults := versions.faults + 1;
        return None;
      }
      if ruleVersion !in versions.versions {
        return None;
      }
      var target := versions.versions[ruleVersion];
      if target.snapshot != snapshot || target.rules.None? {
        return None;
      }
      var assembled := Assemble();
      if assembled.None? {
        return None;
      }
      var cfg := assembled.value.(rules := target.rules.value);
      var prior, ok := ReadActive();
      if !ok {
        return None;
      }
      assert forall v :: v in versions.active <==> prior == Some(v);
      if Stale(prevSnapshot, SnapshotOf(versions.versions, prior)) {
        return None;
      }
      return Some((prior, cfg));
    }

    // ---------- the driver ----------

    /** The NoOp driver moves nothing but what the commit callback moves, and can only fail by it. */
    method NoOpApply(snapshot: nat, withCommit: bool) returns (res: Systemd.ApplyResult)
      requires Valid()
      requires withCommit ==> snapshot in inflight && !inflight[snapshot].committed
      modifies this`published, this`inflight, versions`active, versions`faults
      ensures Valid() && versions.versions == old(versions.versions) && versions.faults >= old(versions.faults)
      ensures !withCommit ==> versions.faults == old(versions.faults)
      ensures !withCommit || (old(inflight)[snapshot].target in versions.versions && versions.faults == old(versions.faults))
              ==> res == Systemd.Confirmed
      ensures res == Systemd.Confirmed || (withCommit && res == Systemd.RolledBack(Systemd.Commit))
      ensures res.Confirmed? && withCommit ==>
                var info := old(inflight)[snapshot];
                versions.active == {info.target} && published == info.targetTable
                && inflight == old(inflight)[snapshot := info.(committed := true)]
      ensures !(res.Confirmed? && withCommit) ==>
                versions.active == old(versions.active) && published == old(published) && inflight == old(inflight)
    {
      if withCommit {
        var ok := CommitRuleApply(snapshot);
        if !ok {
          return Systemd.RolledBack(Systemd.Commit);
        }
      }
      return Systemd.Confirmed;
    }

    /** Either driver's Apply, with the commit callback of a rules apply: confirmed with a callback means the commit
        has happened, and every other result that the control plane has not moved; the host is where the result says. */
    method CallDriver(cfg: Config, snapshot: nat, withCommit: bool)
      returns (res: Systemd.ApplyResult, watch: Systemd.Observation<Config>)
      requires Valid()
      requires withCommit ==> snapshot in inflight && !inflight[snapshot].committed
      modifies this`published, this`inflight, versions`active, versions`faults, systemd
      ensures Valid() && versions.versions == old(versions.versions) && versions.faults >= old(versions.faults)
      ensures res.Failed? <==> PlaneFailed()
      ensures systemd != null ==>
                && systemd.faults >= old(systemd.faults) && systemd.snapFaults >= old(systemd.snapFaults)
                && systemd.backFaults >= old(systemd.backFaults)
      ensures !withCommit ==> versions.faults == old(versions.faults)
      ensures PlaneWell() && !old(Busy())
              && (withCommit ==> old(inflight)[snapshot].target in versions.versions
                                 && versions.faults == old(versions.faults)) ==>
                res == if systemd != null && systemd.hasHealthCheck then Systemd.Observing else Systemd.Confirmed
      ensures res.Confirmed? && withCommit ==>
                var info := old(inflight)[snapshot];
                versions.active == {info.target} && published == info.targetTable
                && inflight == old(inflight)[snapshot := info.(committed := true)]
      ensures !(res.Confirmed? && withCommit) ==>
                versions.active == old(versions.active) && published == old(published) && inflight == old(inflight)
      ensures res.InFlight? <==> old(Busy())
      ensures Busy() <==> old(Busy()) || res.Observing?
      ensures systemd == null ==> res == Systemd.Confirmed || (withCommit && res == Systemd.RolledBack(Systemd.Commit))
      ensures systemd != null ==> Systemd.Lands(old(systemd.View()), cfg, res, systemd.View())
      ensures res.Observing? ==> systemd != null && watch == Systemd.Observation(cfg, old(systemd.disk))
    {
      if systemd == null {
        watch := Systemd.Observation(cfg, Systemd.AllRendered(cfg));
        res := NoOpApply(snapshot, withCommit);
        return;
      }
      watch := Systemd.Observation(cfg, systemd.disk);
      var step := systemd.BeginApply(cfg);
      if step.Over? {
        return step.res, watch;
      }
      if systemd.hasHealthCheck {
        return Systemd.Observing, Systemd.Observation(cfg, step.prev);
      }
      var commit := None;
      if withCommit {
        var ok := CommitRuleApply(snapshot);
        commit := Some(ok);
      }
      var atCommit;
      res, atCommit := systemd.Settle(cfg, step.prev, commit);
      systemd.Unlock();
    }

    // ---------- whole calls, with nothing else running ----------

    // The submitted row and the in-flight entry that names it.
    method InsertRow(snapshot: nat, ruleVersion: nat, prior: Option<nat>) returns (row: nat, ok: bool)
      requires Valid()
      modifies this`inflight, this`terminalStatus, this`terminalOrder, statuses
      ensures Valid() && row == |old(statuses.rows)|
      ensures statuses.faults == old(statuses.faults) + if ok then 0 else 1
      ensures statuses.rows == if ok then old(statuses.rows) + [StatusRow(snapshot, Submitted, 0)] else old(statuses.rows)
      ensures inflight == if ok then old(inflight)[snapshot := NewInfo(versions.versions, row, ruleVersion, prior)]
                          else old(inflight)
      ensures ok ==> snapshot !in terminalStatus
    {
      row, ok := statuses.InsertApplyStatus(snapshot);
      if ok {
        ClearTerminalStatus(snapshot);
        inflight := inflight[snapshot := NewInfo(versions.versions, row, ruleVersion, prior)];
      }
    }

    /** Refused: another variation is inside. Rejected: an error before the status row exists. Ended: the row has its
        terminal state. Watching: the health observer will end it, and the gate stays taken for it. */
    method ApplyRules(snapshot: nat, ruleVersion: nat, prevSnapshot: nat) returns (out: CallOutcome)
      requires Valid()
      modifies this, versions`active, versions`faults, exits`faults, statuses, systemd
      ensures Valid() && RulesMake(old(See()), See(), out, snapshot, ruleVersion, prevSnapshot, Observes())
      ensures out.Refused? <==> old(variationActive)
      ensures variationActive == (old(variationActive) || out.Watching?)
      ensures protectedExits == old(protectedExits)
      ensures out.Ended? ==> out.row < |statuses.rows| && Told(out.row) == out.state
      ensures out.Watching? ==> out.row < |statuses.rows| && Told(out.row) == Submitted
    {
      hide Counting, Indexed, CutOut, CacheValid, RulesMake, See;
      var begun := BeginVariation();
      if !begun {
        NothingApplied(old(See()), See(), Refused, snapshot, ruleVersion, prevSnapshot, Observes());
        return Refused;
      }
      out := ApplyInside(snapshot, ruleVersion, prevSnapshot);
      if !out.Watching? {
        EndVariation();
      }
    }

    // ApplyRules inside the gate.
    method ApplyInside(snapshot: nat, ruleVersion: nat, prevSnapshot: nat) returns (out: CallOutcome)
      requires Valid()
      modifies this`published, this`inflight, this`terminalStatus, this`terminalOrder, versions`active, versions`faults,
               exits`faults, statuses, systemd
      ensures Valid() && !out.Refused?
      ensures RulesMake(old(See()), See(), out, snapshot, ruleVersion, prevSnapshot, Observes())
      ensures out.Ended? ==> out.row < |statuses.rows| && Told(out.row) == out.state
      ensures out.Watching? ==> out.row < |statuses.rows| && Told(out.row) == Submitted
    {
      hide Counting, Indexed, CutOut, CacheValid, RulesMake, RulesDriven, TableOf, RulesOf, Applicable, ScanOrder;
      ghost var b := See();
      var plan := Plan(snapshot, ruleVersion, prevSnapshot);
      if plan.None? {
        NothingApplied(b, See(), Rejected(false), snapshot, ruleVersion, prevSnapshot, Observes());
        return Rejected(false);
      }
      TableWhenApplicable(versions.versions, versions.active, snapshot, ruleVersion, prevSnapshot);
      var row, inserted := InsertRow(snapshot, ruleVersion, plan.value.0);
      ghost var m := See();
      if !inserted {
        NothingApplied(b, m, Rejected(false), snapshot, ruleVersion, prevSnapshot, Observes());
        return Rejected(false);
      }
      out := DriveRules(plan.value.1, snapshot, row);
      RulesTogether(b, m, See(), out, plan.value.1, row, snapshot, ruleVersion, prevSnapshot, Observes());
    }

    // ApplyRules from the driver on, up to the release of the gate.
    method DriveRules(cfg: Config, snapshot: nat, row: nat) returns (out: CallOutcome)
      requires Valid() && row < |statuses.rows|
      requires snapshot in inflight && !inflight[snapshot].committed
      modifies this`published, this`inflight, this`terminalStatus, this`terminalOrder, versions`active, versions`faults,
               statuses, systemd
      ensures Valid() && (out.Ended? || out.Watching?)
      ensures RulesDriven(old(See()), See(), out, cfg, row, snapshot, Observes())
      ensures row < |statuses.rows| && (out.Ended? && old(IsOpen(row, snapshot)) ==> Told(row) == out.state)
      ensures out.Ended? || out.Watching? ==> out.row == row
      ensures out.Watching? ==> statuses.rows == old(statuses.rows) && terminalStatus == old(terminalStatus)
    {
      hide Counting, Indexed, CutOut, CacheValid, UpdateRow, RulesDriven, PlaneEnds;
      ghost var m := See();
      var res, watch := CallWithCommit(cfg, snapshot);
      ghost var d := See();
      if res.Observing? {
        RulesWatched(m, d, cfg, watch, snapshot, row, Observes());
        return Watching(row, watch);
      }
      var state := TerminalState(res);
      FinishRules(row, snapshot, state);
      RulesComeOut(m, d, See(), cfg, res, watch, state, snapshot, row, Observes());
      return Ended(row, state, false);
    }

    // CallDriver for a rules apply.
    method CallWithCommit(cfg: Config, snapshot: nat)
      returns (res: Systemd.ApplyResult, watch: Systemd.Observation<Config>)
      requires Valid() && snapshot in inflight && !inflight[snapshot].committed
      modifies this`published, this`inflight, versions`active, versions`faults, systemd
      ensures Valid() && RulesSpoken(old(See()), See(), cfg, res, watch, snapshot, Observes())
      ensures res.Confirmed? ==> snapshot in inflight && inflight[snapshot].committed
    {
      hide Counting, Indexed, CutOut, CacheValid;
      res, watch := CallDriver(cfg, snapshot, true);
    }

    // What is left of an apply whose driver has spoken: a commit that is there already, the row, the entry.
    method FinishRules(row: nat, snapshot: nat, state: RowState)
      requires Valid() && row < |statuses.rows|
      requires state.Confirmed? ==> snapshot in inflight && inflight[snapshot].committed
      modifies this`published, this`inflight, this`terminalStatus, this`terminalOrder, versions`active, versions`faults,
               statuses
      ensures Valid()
      ensures See() == old(See()).(rows := statuses.rows, inflight := old(inflight) - {snapshot},
                                   faults := old(See()).faults.(db := See().faults.db))
      ensures See().faults.db >= old(See()).faults.db
      ensures exists ok :: statuses.rows == UpdateRow(old(statuses.rows), row, state, ok)
      ensures row < |statuses.rows| && (old(IsOpen(row, snapshot)) ==> Told(row) == state)
    {
      hide Counting, Indexed, CutOut, CacheValid, UpdateRow;
      if state.Confirmed? {
        var again := CommitRuleApply(snapshot);
        assert again;      // there is nothing for Rollback to restore
      }
      PersistApplyStatus(row, snapshot, state);
      inflight := inflight - {snapshot};
    }

    /** A stored version that parses is applied at once; nothing is stored when the text does not parse or validate,
        and a stored version that is not confirmed stays inactive. */
    method ImportRules(parsed: Option<seq<Rule>>, snapshot: nat, id: nat) returns (out: CallOutcome)
      requires Valid() && id !in versions.versions
      modifies this, versions, exits`faults, statuses, systemd
      ensures Valid()
      ensures (!old(variationActive) && parsed.Some? && AllParse(old(versions.versions), old(versions.active))
               && See().faults == old(See()).faults) ==> ByPlane(out, old(Busy()), Observes())
      ensures versions.versions == old(versions.versions)
              || (parsed.Some? && versions.versions == old(versions.versions)[id := Version(snapshot, parsed)])
      ensures parsed.None? ==> out.Rejected? && versions.versions == old(versions.versions)
      ensures IsConfirmed(out) ==> parsed.Some? && versions.active == {id} && published == ScanOrder(parsed.value)
      ensures !IsConfirmed(out) ==> versions.active == old(versions.active) && published == old(published)
      ensures out.Refused? ==> old(variationActive)
      ensures variationActive == (old(variationActive) || out.Watching?)
    {
      if parsed.None? {
        return Rejected(false);
      }
      var snapped := *;
      if !snapped {
        snapshotFaults := snapshotFaults + 1;
        return Rejected(false);
      }
      var stored := versions.InsertRuleVersion(id, Version(snapshot, parsed));
      if !stored {
        return Rejected(false);
      }
      out := ApplyRules(snapshot, id, 0);
    }

    /** As ApplyRules, for the active exit; protection and in-flight entry outlive the call only while Watching.
        The target is active afterwards exactly when the call is confirmed, watching or stranded; a switch from an
        active exit is stranded only when putting that exit back failed, and then does not end rolled back. */
    method SwitchExit(exitID: string, snapshot: nat) returns (out: CallOutcome)
      requires Valid() && "" !in Ids(exits.rows)
      modifies this, exits, statuses, versions`faults, versions`active, systemd
      ensures Valid() && "" !in Ids(exits.rows)
      ensures SwitchMakes(old(See()), See(), out, exitID, snapshot, Observes())
      ensures out.Refused? <==> exitID != "" && old(variationActive)
      ensures variationActive == (old(variationActive) || out.Watching?)
      ensures protectedExits == if out.Watching? then Protect(old(protectedExits), [switchInflight[snapshot].from, exitID])
                                else old(protectedExits)
      ensures out.Ended? ==> out.row < |statuses.rows| && Told(out.row) == out.state
      ensures out.Watching? ==> out.row < |statuses.rows| && Told(out.row) == Submitted
    {
      hide Protect, Unprotect, Counting, Indexed, CutOut, CacheValid, SwitchMakes, See;
      if exitID == "" {
        NothingSwitched(old(See()), See(), Rejected(false), exitID, snapshot, Observes());
        return Rejected(false);
      }
      var begun := BeginVariation();
      if !begun {
        NothingSwitched(old(See()), See(), Refused, exitID, snapshot, Observes());
        return Refused;
      }
      var prior, found := ReadPrior();
      if !found {
        EndVariation();
        NothingSwitched(old(See()), See(), Rejected(false), exitID, snapshot, Observes());
        return Rejected(false);
      }
      ProtectSwitchExits([prior, exitID]);
      UnprotectUndoesProtect(old(protectedExits), [prior, exitID]);
      out := SwitchProtected(prior, exitID, snapshot);
      if !out.Watching? {
        UnprotectSwitchExits([prior, exitID]);
        EndVariation();
      }
    }

    method ReadPrior() returns (prior: string, found: bool)
      requires Valid() && "" !in Ids(exits.rows)
      modifies exits`faults
      ensures Valid() && See() == old(See()).(faults := See().faults)
      ensures See().faults == old(See()).faults.(db := old(See()).faults.db + if found then 0 else 1)
      ensures found ==> exits.View().active == (if prior == "" then {} else {prior})
      ensures found && prior != "" ==> prior in exits.View().present
    {
      prior, found := exits.Active();
      if found && prior != "" {
        assert prior in ActiveIds(exits.rows);
      }
    }

    // SwitchExit between taking protection and giving it up.
    method SwitchProtected(prior: string, exitID: string, snapshot: nat) returns (out: CallOutcome)
      requires Valid() && "" !in Ids(exits.rows) && exitID != ""
      requires exits.View().active == if prior == "" then {} else {prior}
      requires prior != "" ==> prior in exits.View().present
      modifies this`switchInflight, this`terminalStatus, this`terminalOrder, this`published, this`inflight,
               this`snapshotFaults, exits, statuses, versions`faults, versions`active, systemd
      ensures Valid() && "" !in Ids(exits.rows) && !out.Refused?
      ensures SwitchMakes(old(See()), See(), out, exitID, snapshot, Observes())
      ensures out.Watching? ==> snapshot in switchInflight && switchInflight[snapshot].from == prior
      ensures out.Ended? ==> out.row < |statuses.rows| && Told(out.row) == out.state
      ensures out.Watching? ==> out.row < |statuses.rows| && Told(out.row) == Submitted
    {
      hide SwitchOpened, SwitchNotOpened, SwitchDriven, SwitchMakes, Counting, Indexed, CutOut, CacheValid;
      ghost var b := See();
      var cfg, row, stranded := OpenSwitch(prior, exitID, snapshot);
      ghost var m := See();
      if cfg.None? {
        SwitchTurnedDown(b, m, stranded, prior, exitID, snapshot, Observes());
        return Rejected(stranded);
      }
      out := DriveSwitch(cfg.value, prior, exitID, snapshot, row);
      SwitchTogether(b, m, See(), out, cfg.value, row, prior, exitID, snapshot, Observes());
    }

    // The switch in the database, the config, the row and the entry; None when one of them failed.
    method OpenSwitch(prior: string, exitID: string, snapshot: nat)
      returns (cfg: Option<Config>, row: nat, stranded: bool)
      requires Valid() && "" !in Ids(exits.rows) && exitID != ""
      requires exits.View().active == if prior == "" then {} else {prior}
      requires prior != "" ==> prior in exits.View().present
      modifies this`switchInflight, this`terminalStatus, this`terminalOrder, this`snapshotFaults, exits, statuses,
               versions`faults
      ensures Valid() && row == |old(statuses.rows)| && "" !in Ids(exits.rows)
      ensures cfg.Some? ==> SwitchOpened(old(See()), See(), cfg.value, row, prior, exitID, snapshot)
      ensures cfg.None? ==> SwitchNotOpened(old(See()), See(), stranded, prior, exitID)
      ensures cfg.Some? ==> row < |statuses.rows| && exits.View().active == {exitID} && exitID in exits.View().present
                            && (prior != "" ==> prior in exits.View().present)
      ensures cfg.Some? ==> snapshot !in terminalStatus && IsOpen(row, snapshot)
    {
      hide Counting, Indexed, CutOut, CacheValid, AllParse, RulesOf;
      row, stranded := |statuses.rows|, false;
      ghost var b := See();
      var moved := MoveExit(exitID);
      ghost var m := See();
      if !moved {
        return None, row, false;
      }
      cfg, row := PrepareSwitch(snapshot);
      ghost var n := See();
      if cfg.None? {
        var _, back := PutBack(prior, RolledBack);
        return None, row, prior == "" || !back;
      }
      RegisterSwitch(snapshot, SwitchInfo(row, exitID, prior));
    }

    method MoveExit(exitID: string) returns (ok: bool)
      requires Valid() && "" !in Ids(exits.rows)
      modifies exits
      ensures Valid() && Ids(exits.rows) == old(Ids(exits.rows))
      ensures ok ==> exitID in old(See()).exits.present
      ensures See() == old(See()).(exits := if ok then Exits(old(See()).exits.present, {exitID}) else old(See()).exits,
                                   faults := See().faults)
      ensures !ok ==> exitID !in old(See()).exits.present || See().faults.db > old(See()).faults.db
      ensures ok ==> See().faults == old(See()).faults
      ensures See().faults.db >= old(See()).faults.db && See().faults.switches >= old(See()).faults.switches
    {
      hide Counting, Indexed, CutOut, CacheValid;
      var err := exits.Switch(exitID);
      ok := err.None?;
    }

    method PutBack(prior: string, terminal: RowState) returns (state: RowState, back: bool)
      requires Valid() && (prior != "" ==> prior in exits.View().present)
      modifies exits
      ensures Valid() && Ids(exits.rows) == old(Ids(exits.rows))
      ensures var b, b' := old(See()), See();
              && b' == b.(exits := if prior != "" && back then Exits(b.exits.present, {prior}) else b.exits,
                          faults := b.faults.(db := b'.faults.db, switches := b'.faults.switches))
              && b'.faults.db - b.faults.db == b'.faults.switches - b.faults.switches == if back then 0 else 1
      ensures prior == "" ==> back
      ensures state == if back then terminal else Failed
    {
      hide Counting, Indexed, CutOut, CacheValid;
      state, back := CompensateSwitch(prior, terminal);
    }

    method RegisterSwitch(snapshot: nat, info: SwitchInfo)
      requires Valid()
      modifies this`switchInflight, this`terminalStatus, this`terminalOrder
      ensures Valid() && See() == old(See()).(switchInflight := old(switchInflight)[snapshot := info])
      ensures snapshot !in terminalStatus
    {
      hide Counting, Indexed, CutOut, CacheValid;
      ClearTerminalStatus(snapshot);
      switchInflight := switchInflight[snapshot := info];
    }

    // The config, the snapshot row and the status row.
    method PrepareSwitch(snapshot: nat) returns (cfg: Option<Config>, row: nat)
      requires Valid()
      modifies this`snapshotFaults, exits`faults, statuses, versions`faults
      ensures Valid() && row == |old(statuses.rows)|
      ensures var b, b' := old(See()), See();
              && b' == b.(rows := if cfg.Some? then b.rows + [StatusRow(snapshot, Submitted, 0)] else b.rows,
                          faults := b.faults.(db := b'.faults.db))
              && b'.faults.db >= b.faults.db
              && (cfg.Some? <==> AllParse(b.versions, ActiveSet(b.current)) && b'.faults.db == b.faults.db)
              && (cfg.Some? ==> cfg.value == Config(RulesOf(b.versions, b.current), b.exits.active))
    {
      hide TableOf, RulesOf, Counting, Indexed, CacheValid, AllParse;
      row := |statuses.rows|;
      cfg := Assemble();
      if cfg.None? {
        return;
      }
      var snapped := *;
      if !snapped {
        snapshotFaults := snapshotFaults + 1;
        return None, row;
      }
      var inserted;
      row, inserted := statuses.InsertApplyStatus(snapshot);
      if !inserted {
        cfg := None;
      }
    }

    // SwitchExit from the driver on, up to the release of the protection.
    method DriveSwitch(cfg: Config, prior: string, exitID: string, snapshot: nat, row: nat) returns (out: CallOutcome)
      requires Valid() && row < |statuses.rows|
      requires exits.View().active == {exitID} && exitID in exits.View().present
      requires prior != "" ==> prior in exits.View().present
      modifies this`switchInflight, this`terminalStatus, this`terminalOrder, this`published, this`inflight,
               exits, statuses, versions`faults, versions`active, systemd
      ensures Valid() && Ids(exits.rows) == old(Ids(exits.rows)) && (out.Ended? || out.Watching?)
      ensures SwitchDriven(old(See()), See(), out, cfg, row, prior, exitID, snapshot, Observes())
      ensures row < |statuses.rows| && (out.Ended? && old(IsOpen(row, snapshot)) ==> Told(row) == out.state)
      ensures out.Ended? || out.Watching? ==> out.row == row
      ensures out.Watching? ==> statuses.rows == old(statuses.rows) && terminalStatus == old(terminalStatus)
    {
      hide Counting, Indexed, CutOut, CacheValid, UpdateRow, Compensated, RulesOf;
      ghost var m := See();
      var res, watch := CallDriver(cfg, snapshot, false);
      ghost var d := See();
      assert d == m.(plane := d.plane, busy := d.busy, faults := d.faults);
      if res.Observing? {
        return Watching(row, watch);
      }
      var state, stranded := SettleSwitch(prior, exitID, TerminalState(res), snapshot, row);
      out := Ended(row, state, stranded);
      SwitchComesOut(m, d, See(), cfg, res, state, stranded, prior, exitID, snapshot, row, Observes());
    }

    // What is left of a switch whose driver has spoken: the prior exit unless confirmed, the row, the entry.
    method SettleSwitch(prior: string, exitID: string, spoken: RowState, snapshot: nat, row: nat)
      returns (state: RowState, stranded: bool)
      requires Valid() && row < |statuses.rows| && !spoken.Submitted?
      requires exits.View().active == {exitID} && exitID in exits.View().present
      requires prior != "" ==> prior in exits.View().present
      modifies this`switchInflight, this`terminalStatus, this`terminalOrder, exits, statuses
      ensures Valid() && Ids(exits.rows) == old(Ids(exits.rows))
      ensures SwitchSettled(old(See()), See(), spoken, state, stranded, prior, exitID, snapshot, row)
      ensures row < |statuses.rows| && (old(IsOpen(row, snapshot)) ==> Told(row) == state)
    {
      hide Counting, Indexed, CutOut, CacheValid, UpdateRow, RulesOf;
      state, stranded := spoken, false;
      if !state.Confirmed? {
        var back;
        state, back := PutBack(prior, spoken);
        stranded := prior == "" || !back;
      }
      FinishSwitch(row, snapshot, state);
    }

    method FinishSwitch(row: nat, snapshot: nat, state: RowState)
      requires Valid() && row < |statuses.rows|
      modifies this`switchInflight, this`terminalStatus, this`terminalOrder, statuses
      ensures Valid()
      ensures See() == old(See()).(rows := statuses.rows, switchInflight := old(switchInflight) - {snapshot},
                                   faults := old(See()).faults.(db := See().faults.db))
      ensures See().faults.db >= old(See()).faults.db
      ensures exists ok :: statuses.rows == UpdateRow(old(statuses.rows), row, state, ok)
      ensures row < |statuses.rows| && (old(IsOpen(row, snapshot)) ==> Told(row) == state)
    {
      hide Counting, Indexed, CutOut, CacheValid, UpdateRow;
      PersistApplyStatus(row, snapshot, state);
      switchInflight := switchInflight - {snapshot};
    }

    // ---------- the observer ----------

    /** The observer's call for a rules apply, whatever it finds committed: a rollback takes a commit back, a
        confirmation makes it if it is not there, and when that fails the data plane is asked to roll back, which
        the driver refuses while the observation still holds applyMu. */
    method OnRuleHealth(snapshot: nat, res: Systemd.ApplyResult) returns (state: RowState)
      requires Valid() && snapshot in inflight && inflight[snapshot].row < |statuses.rows|
      requires res.Confirmed? || res.RolledBack? || res.Failed?
      modifies this, versions`active, versions`faults, statuses, systemd
      ensures Valid() && !variationActive && inflight == old(inflight) - {snapshot}
      ensures versions.versions == old(versions.versions)
      ensures switchInflight == old(switchInflight) && protectedExits == old(protectedExits)
      ensures RuleHealthEnds(old(inflight)[snapshot], res, state, old(versions.active), old(published),
                             versions.active, published)
      ensures Busy() == old(Busy()) && (systemd != null ==> systemd.config == old(systemd.config))
      ensures versions.faults >= old(versions.faults)
      ensures res.Confirmed? && old(inflight)[snapshot].committed ==> versions.faults == old(versions.faults)
      ensures (res.Confirmed? && old(inflight)[snapshot].target in versions.versions
               && versions.faults == old(versions.faults)) ==> state.Confirmed?
      ensures (res.RolledBack? && old(inflight)[snapshot].committed && versions.faults == old(versions.faults)
               && ActiveSet(old(inflight)[snapshot].prior) <= versions.versions.Keys) ==>
                versions.active == ActiveSet(old(inflight)[snapshot].prior)
                && published == old(inflight)[snapshot].priorTable
      ensures (res.Confirmed? && !state.Confirmed? && PlaneWell() && !old(Busy())
               && (systemd != null ==> systemd.config.Some?)) ==> state.RolledBack?
      ensures !(res.Confirmed? && !state.Confirmed?) && systemd != null ==>
                && systemd.faults == old(systemd.faults) && systemd.snapFaults == old(systemd.snapFaults)
                && systemd.backFaults == old(systemd.backFaults)
      ensures !(res.Confirmed? && !state.Confirmed?) || old(Busy()) ==> Plane() == old(Plane())
      ensures res.Confirmed? && !state.Confirmed? ==>
                && (systemd == null ==> state.RolledBack?)
                && (old(Busy()) ==> state.Failed?)
                && (state.RolledBack? && systemd != null ==>
                      old(systemd.config).Some? && systemd.View() == Systemd.InSync(old(systemd.config).value))
      ensures exists ok :: statuses.rows == UpdateRow(old(statuses.rows), old(inflight)[snapshot].row, state, ok)
      ensures old(inflight)[snapshot].row < |statuses.rows|
              && (old(IsOpen(inflight[snapshot].row, snapshot)) ==> Told(old(inflight)[snapshot].row) == state)
    {
      hide Counting, Indexed, CutOut, UpdateRow, RuleHealthEnds;
      var row := inflight[snapshot].row;
      state := DecideRules(snapshot, res);
      PersistApplyStatus(row, snapshot, state);
      inflight := inflight - {snapshot};
      EndVariation();
    }

    // OnRuleHealth up to the terminal state it records.
    method DecideRules(snapshot: nat, res: Systemd.ApplyResult) returns (state: RowState)
      requires Valid() && snapshot in inflight && (res.Confirmed? || res.RolledBack? || res.Failed?)
      modifies this`published, this`inflight, versions`active, versions`faults, systemd
      ensures Valid() && versions.versions == old(versions.versions) && inflight - {snapshot} == old(inflight) - {snapshot}
      ensures RuleHealthEnds(old(inflight)[snapshot], res, state, old(versions.active), old(published),
                             versions.active, published)
      ensures Busy() == old(Busy()) && (systemd != null ==> systemd.config == old(systemd.config))
      ensures versions.faults >= old(versions.faults)
      ensures res.Confirmed? && old(inflight)[snapshot].committed ==> versions.faults == old(versions.faults)
      ensures (res.Confirmed? && old(inflight)[snapshot].target in versions.versions
               && versions.faults == old(versions.faults)) ==> state.Confirmed?
      ensures (res.RolledBack? && old(inflight)[snapshot].committed && versions.faults == old(versions.faults)
               && ActiveSet(old(inflight)[snapshot].prior) <= versions.versions.Keys) ==>
                versions.active == ActiveSet(old(inflight)[snapshot].prior)
                && published == old(inflight)[snapshot].priorTable
      ensures (res.Confirmed? && !state.Confirmed? && PlaneWell() && !old(Busy())
               && (systemd != null ==> systemd.config.Some?)) ==> state.RolledBack?
      ensures !(res.Confirmed? && !state.Confirmed?) && systemd != null ==>
                && systemd.faults == old(systemd.faults) && systemd.snapFaults == old(systemd.snapFaults)
                && systemd.backFaults == old(systemd.backFaults)
      ensures !(res.Confirmed? && !state.Confirmed?) || old(Busy()) ==> Plane() == old(Plane())
      ensures res.Confirmed? && !state.Confirmed? ==>
                && (systemd == null ==> state.RolledBack?)
                && (old(Busy()) ==> state.Failed?)
                && (state.RolledBack? && systemd != null ==>
                      old(systemd.config).Some? && systemd.View() == Systemd.InSync(old(systemd.config).value))
    {
      hide Counting, Indexed, CacheValid;
      state := TerminalState(res);
      if state.RolledBack? {
        RollbackRuleApply(snapshot);
      } else if state.Confirmed? {
        var ok := CommitRuleApply(snapshot);
        if !ok {
          state := RollbackPlane();
        }
      }
    }

    // Orch.Rollback after a commit that failed, and the state it leaves to record.
    method RollbackPlane() returns (state: RowState)
      requires Valid()
      modifies systemd
      ensures Valid() && (state.RolledBack? || state.Failed?)
      ensures Busy() == old(Busy()) && (systemd != null ==> systemd.config == old(systemd.config))
      ensures systemd == null ==> state.RolledBack?
      ensures old(Busy()) ==> state.Failed? && Plane() == old(Plane())
      ensures !old(Busy()) && PlaneWell() && (systemd != null ==> systemd.config.Some?) ==> state.RolledBack?
      ensures state.RolledBack? && systemd != null ==>
                old(systemd.config).Some? && systemd.View() == Systemd.InSync(old(systemd.config).value)
    {
      if systemd == null {
        return RolledBack;
      }
      var r := systemd.Rollback();
      return if r.Reapplied? then RolledBack else Failed;
    }

    /** The observer's call for a switch: anything but a confirmed report puts the prior exit back, or ends failed,
        and both sides lose the protection the switch gave them. */
    method OnSwitchHealth(snapshot: nat, res: Systemd.ApplyResult) returns (state: RowState, back: bool)
      requires Valid() && snapshot in switchInflight
      requires switchInflight[snapshot].row < |statuses.rows|
      requires res.Confirmed? || res.RolledBack? || res.Failed?
      modifies this, exits, statuses
      ensures Valid() && !variationActive && switchInflight == old(switchInflight) - {snapshot}
      ensures inflight == old(inflight) && published == old(published)
      ensures res.Confirmed? ==> back && exits.rows == old(exits.rows)
      ensures !res.Confirmed? ==>
                exists ok :: (exits.View(), back) == Compensated(old(exits.View()), old(switchInflight)[snapshot].from, ok)
      ensures state == if !back || res.Failed? then Failed else if res.Confirmed? then Confirmed else RolledBack
      ensures old(switchInflight)[snapshot].from in exits.View().present ==>
                exits.switchFaults == old(exits.switchFaults) + if back then 0 else 1
      ensures var info := old(switchInflight)[snapshot];
              protectedExits == Unprotect(old(protectedExits), [info.from, info.to])
      ensures exists ok :: statuses.rows == UpdateRow(old(statuses.rows), old(switchInflight)[snapshot].row, state, ok)
      ensures old(switchInflight)[snapshot].row < |statuses.rows|
              && (old(IsOpen(switchInflight[snapshot].row, snapshot)) ==> Told(old(switchInflight)[snapshot].row) == state)
    {
      hide Counting, Indexed, CutOut, CacheValid;
      var taken := TakeSwitchInflight(snapshot);
      var info := taken.value;
      state, back := TerminalState(res), true;
      if !state.Confirmed? {
        state, back := CompensateSwitch(info.from, state);
      }
      PersistApplyStatus(info.row, snapshot, state);
      UnprotectSwitchExits([info.from, info.to]);
      EndVariation();
    }

    /** A whole observation of a rules apply: commit callback, observer and all. Confirmed moved version and table to
        the target over a host that shows its config; every other end left both alone; an observation that was cut off
        leaves row, entry and gate as they are. */
    method ObserveRules(snapshot: nat, watch: Systemd.Observation<Config>) returns (state: Option<RowState>, woke: nat)
      requires Valid() && variationActive && systemd != null && systemd.applying
      requires systemd.View() == Systemd.InSync(watch.cfg)
      requires snapshot in inflight && inflight[snapshot].row < |statuses.rows| && !inflight[snapshot].committed
      modifies this, versions`active, versions`faults, statuses, systemd
      ensures Valid() && !Busy() && variationActive == state.None? && versions.versions == old(versions.versions)
      ensures state.None? ==>
                && systemd.delay > 0 && woke >= systemd.Budget()
                && inflight == old(inflight) && statuses.rows == old(statuses.rows)
                && systemd.View() == Systemd.InSync(watch.cfg)
      ensures state.Some? ==> (state.value.Failed? <==> PlaneFailed())
      ensures (state.Some? && PlaneWell() && versions.faults == old(versions.faults)
               && old(inflight)[snapshot].target in versions.versions) ==> state.value.Confirmed?
      ensures state.Some? ==>
                && inflight == old(inflight) - {snapshot}
                && exists ok :: statuses.rows == UpdateRow(old(statuses.rows), old(inflight)[snapshot].row, state.value, ok)
      ensures state == Some(Confirmed) ==>
                && versions.active == {old(inflight)[snapshot].target} && published == old(inflight)[snapshot].targetTable
                && systemd.View() == Systemd.InSync(watch.cfg) && systemd.config == Some(watch.cfg)
      ensures state != Some(Confirmed) ==> versions.active == old(versions.active) && published == old(published)
      ensures state == Some(RolledBack) ==> systemd.View() == Systemd.Host(watch.prev, watch.prev)
    {
      hide Counting, Indexed, CutOut, CacheValid, UpdateRow;
      var step;
      step, woke := systemd.Probe(watch);
      if step.Late? {
        systemd.Unlock();
        return None, woke;
      }
      var res;
      if step.Unhealthy? {
        res := step.res;
      } else {
        var ok := CommitRuleApply(snapshot);
        var atCommit;
        res, atCommit := systemd.Settle(watch.cfg, watch.prev, Some(ok));
      }
      var st := OnRuleHealth(snapshot, res);
      systemd.Unlock();
      return Some(st), woke;
    }

    /** And of a switch: a reported rollback means both the prior exit and the host's files and units are back. */
    method ObserveSwitch(snapshot: nat, watch: Systemd.Observation<Config>)
      returns (state: Option<RowState>, back: bool, woke: nat)
      requires Valid() && variationActive && systemd != null && systemd.applying
      requires systemd.View() == Systemd.InSync(watch.cfg)
      requires snapshot in switchInflight && switchInflight[snapshot].row < |statuses.rows|
      modifies this, exits, statuses, systemd
      ensures Valid() && !Busy() && variationActive == state.None?
      ensures state.None? ==>
                && systemd.delay > 0 && woke >= systemd.Budget()
                && switchInflight == old(switchInflight) && protectedExits == old(protectedExits)
                && statuses.rows == old(statuses.rows) && exits.rows == old(exits.rows)
      ensures state.Some? && PlaneWell() ==> state.value.Confirmed?
      ensures state.Some? && old(switchInflight)[snapshot].from in exits.View().present ==>
                (state.value.Failed? <==> PlaneFailed() || exits.switchFaults > old(exits.switchFaults))
      ensures var info := old(switchInflight)[snapshot];
              state.Some? ==>
                && switchInflight == old(switchInflight) - {snapshot}
                && protectedExits == Unprotect(old(protectedExits), [info.from, info.to])
                && exists ok :: statuses.rows == UpdateRow(old(statuses.rows), info.row, state.value, ok)
      ensures state == Some(Confirmed) ==> exits.rows == old(exits.rows) && systemd.View() == Systemd.InSync(watch.cfg)
      ensures state.Some? && state != Some(Confirmed) ==>
                exists ok :: (exits.View(), back) == Compensated(old(exits.View()), old(switchInflight)[snapshot].from, ok)
      ensures state == Some(RolledBack) ==> back && systemd.View() == Systemd.Host(watch.prev, watch.prev)
    {
      hide Counting, Indexed, CutOut, UpdateRow, Compensated, Unprotect;
      back := true;
      var step;
      step, woke := systemd.Probe(watch);
      if step.Late? {
        systemd.Unlock();
        return None, back, woke;
      }
      var res;
      if step.Unhealthy? {
        res := step.res;
      } else {
        var atCommit;
        res, atCommit := systemd.Settle(watch.cfg, watch.prev, None);
      }
      var st;
      st, back := OnSwitchHealth(snapshot, res);
      systemd.Unlock();
      state := Some(st);
    }
  }

  // The exit asked for is active when the call returns.
  predicate OnTarget(out: CallOutcome) {
    IsConfirmed(out) || out.Watching? || LeftStranded(out)
  }

  predicate LeftStranded(out: CallOutcome) {
    (out.Rejected? || out.Ended?) && out.stranded
  }
}
