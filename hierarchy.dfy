/**
 * The in-memory project store of the API server: projects hold subsystems,
 * subsystems hold parts and assemblies. This module gives the entities, the
 * subsystem-number allocator's specification, each create request as a pure
 * step from the old store to a reply and the new store, the summary totals,
 * and the consistency rules the steps keep.
 *
 * The store is the dictionary `projects_storage`; Python dictionaries keep
 * insertion order, so it is a sequence of projects with pairwise distinct ids.
 */
module Hierarchy {
  import opened Basics
  import opened Slots

  /** The two project families the request schema admits (pattern ^(172|nfr)$). */
  datatype Identifier = Team172 | Nfr

  datatype Part = Part(id: string, name: string, description: string, drawing: Option<string>,
                       material: Option<string>, stlFile: Option<string>, iconFile: Option<string>)

  datatype Assembly = Assembly(id: string, name: string, description: string, drawing: Option<string>,
                               iconFile: Option<string>)

  datatype Subsystem = Subsystem(id: string, name: string, number: int, parts: seq<Part>, assemblies: seq<Assembly>)

  datatype Project = Project(id: string, year: int, identifier: Identifier, projectCode: Option<string>,
                             name: string, description: string, subsystems: seq<Subsystem>)

  /** Request bodies. A new subsystem is given only its name. */
  datatype ProjectCreate = ProjectCreate(year: int, identifier: Identifier, projectCode: Option<string>,
                                         name: string, description: string)

  datatype PartCreate = PartCreate(name: string, description: string, drawing: Option<string>,
                                   material: Option<string>, stlFile: Option<string>, iconFile: Option<string>)

  datatype AssemblyCreate = AssemblyCreate(name: string, description: string, drawing: Option<string>,
                                           iconFile: Option<string>)

  /** An HTTPException: status code and detail. */
  datatype HttpError = HttpError(status: int, detail: string)

  /** What a request does: the reply it sends and the store it leaves behind. */
  datatype Step<T> = Step(reply: Result<T, HttpError>, after: seq<Project>)

  const MissingCode := "172 projects must have a project_code"
  const UnexpectedCode := "NFR projects should not have a project_code"
  const NfrAlreadyExists := "NFR project already exists"
  const ProjectNotFound := "Project not found"
  const SubsystemNotFound := "Subsystem not found"
  const SubsystemFailed := "Failed to create subsystem"

  function DuplicateCode(code: string): string {
    "172 project with code " + code + " already exists"
  }

  /** Python truthiness of an optional project code: present and non-empty. */
  predicate HasCode(code: Option<string>) {
    code.Some? && code.value != ""
  }

  predicate DistinctIds(ps: seq<Project>) {
    forall i, j :: 0 <= i < j < |ps| ==> ps[i].id != ps[j].id
  }

  /** Dictionary lookup `projects_storage[project_id]`: the position of the project with that id. */
  function ProjectIndex(ps: seq<Project>, id: string): (r: Option<nat>)
    ensures r.Some? ==> r.value < |ps| && ps[r.value].id == id
    ensures r.None? <==> forall i :: 0 <= i < |ps| ==> ps[i].id != id
  {
    if ps == [] then None
    else if ps[0].id == id then Some(0)
    else
      var r := ProjectIndex(ps[1..], id);
      if r.Some? then Some(r.value + 1) else None
  }

  /** The subsystem the loop-with-break settles on: the first whose id matches. */
  function FirstSubsystemWithId(subs: seq<Subsystem>, id: string): (r: Option<nat>)
    ensures r.Some? ==> r.value < |subs| && subs[r.value].id == id
                        && forall k :: 0 <= k < r.value ==> subs[k].id != id
    ensures r.None? <==> forall k :: 0 <= k < |subs| ==> subs[k].id != id
  {
    if subs == [] then None
    else if subs[0].id == id then Some(0)
    else
      var r := FirstSubsystemWithId(subs[1..], id);
      if r.Some? then Some(r.value + 1) else None
  }

  // ---------------------------------------------------------------------------
  // Subsystem numbers

  /** The largest subsystem number of a family. */
  function MaxSubsystem(identifier: Identifier): nat {
    if identifier == Team172 then 99 else 9999
  }

  /**
   * Whether project p takes part in the numbering scope of (identifier, code):
   * every continuing project shares one scope, a competition project shares
   * only with competition projects of the same code.
   */
  predicate InScope(p: Project, identifier: Identifier, code: Option<string>) {
    p.identifier == identifier && (identifier == Nfr || p.projectCode == code)
  }

  function NumbersOf(subs: seq<Subsystem>): set<int> {
    if subs == [] then {} else NumbersOf(subs[..|subs| - 1]) + {subs[|subs| - 1].number}
  }

  /** The set `existing_numbers` the allocator collects from every project of the scope. */
  function UsedNumbers(ps: seq<Project>, identifier: Identifier, code: Option<string>): set<int> {
    if ps == [] then {}
    else
      var last := ps[|ps| - 1];
      UsedNumbers(ps[..|ps| - 1], identifier, code)
        + (if InScope(last, identifier, code) then NumbersOf(last.subsystems) else {})
  }

  /** generate_subsystem_number: the lowest free number of [0, max], None where it raises RuntimeError. */
  function SubsystemNumber(ps: seq<Project>, identifier: Identifier, code: Option<string>): Option<nat> {
    LowestFree(UsedNumbers(ps, identifier, code), MaxSubsystem(identifier) + 1)
  }

  // ---------------------------------------------------------------------------
  // The create requests

  predicate CodeTaken(ps: seq<Project>, code: Option<string>) {
    exists i :: 0 <= i < |ps| && ps[i].identifier == Team172 && ps[i].projectCode == code
  }

  predicate NfrExists(ps: seq<Project>) {
    exists i :: 0 <= i < |ps| && ps[i].identifier == Nfr
  }

  function NewProject(projectId: string, data: ProjectCreate): Project {
    Project(projectId, data.year, data.identifier, data.projectCode, data.name, data.description, [])
  }

  function NewPart(partId: string, data: PartCreate): Part {
    Part(partId, data.name, data.description, data.drawing, data.material, data.stlFile, data.iconFile)
  }

  function NewAssembly(assemblyId: string, data: AssemblyCreate): Assembly {
    Assembly(assemblyId, data.name, data.description, data.drawing, data.iconFile)
  }

  /** The store with subsystem j of project i replaced by s. */
  function WithSubsystem(ps: seq<Project>, i: nat, j: nat, s: Subsystem): seq<Project>
    requires i < |ps| && j < |ps[i].subsystems|
  {
    ps[i := ps[i].(subsystems := ps[i].subsystems[j := s])]
  }

  function CreateProjectStep(ps: seq<Project>, projectId: string, data: ProjectCreate): Step<Project> {
    if data.identifier == Team172 && !HasCode(data.projectCode) then
      Step(Failure(HttpError(400, MissingCode)), ps)
    else if data.identifier == Nfr && HasCode(data.projectCode) then
      Step(Failure(HttpError(400, UnexpectedCode)), ps)
    else if data.identifier == Team172 && CodeTaken(ps, data.projectCode) then
      Step(Failure(HttpError(400, DuplicateCode(data.projectCode.value))), ps)
    else if data.identifier == Nfr && NfrExists(ps) then
      Step(Failure(HttpError(400, NfrAlreadyExists)), ps)
    else
      var p := NewProject(projectId, data);
      Step(Success(p), ps + [p])
  }

  /** An exhausted number range raises RuntimeError, which the handler turns into a 500. */
  function CreateSubsystemStep(ps: seq<Project>, projectId: string, subsystemId: string, name: string)
    : Step<Subsystem>
  {
    match ProjectIndex(ps, projectId)
    case None => Step(Failure(HttpError(404, ProjectNotFound)), ps)
    case Some(i) =>
      match SubsystemNumber(ps, ps[i].identifier, ps[i].projectCode)
      case None => Step(Failure(HttpError(500, SubsystemFailed)), ps)
      case Some(n) =>
        var s := Subsystem(subsystemId, name, n, [], []);
        Step(Success(s), ps[i := ps[i].(subsystems := ps[i].subsystems + [s])])
  }

  function CreatePartStep(ps: seq<Project>, projectId: string, subsystemId: string, partId: string,
                          data: PartCreate): Step<Part>
  {
    match ProjectIndex(ps, projectId)
    case None => Step(Failure(HttpError(404, ProjectNotFound)), ps)
    case Some(i) =>
      match FirstSubsystemWithId(ps[i].subsystems, subsystemId)
      case None => Step(Failure(HttpError(404, SubsystemNotFound)), ps)
      case Some(j) =>
        var part := NewPart(partId, data);
        var s := ps[i].subsystems[j];
        Step(Success(part), WithSubsystem(ps, i, j, s.(parts := s.parts + [part])))
  }

  function CreateAssemblyStep(ps: seq<Project>, projectId: string, subsystemId: string, assemblyId: string,
                              data: AssemblyCreate): Step<Assembly>
  {
    match ProjectIndex(ps, projectId)
    case None => Step(Failure(HttpError(404, ProjectNotFound)), ps)
    case Some(i) =>
      match FirstSubsystemWithId(ps[i].subsystems, subsystemId)
      case None => Step(Failure(HttpError(404, SubsystemNotFound)), ps)
      case Some(j) =>
        var assembly := NewAssembly(assemblyId, data);
        var s := ps[i].subsystems[j];
        Step(Success(assembly), WithSubsystem(ps, i, j, s.(assemblies := s.assemblies + [assembly])))
  }

  // ---------------------------------------------------------------------------
  // Summary totals

  datatype DatabaseSummary = DatabaseSummary(totalParts: nat, totalAssemblies: nat, totalSubsystems: nat,
                                             totalProjects: nat, projects: seq<Project>)

  /** f summed over a sequence. */
  function SumOver<T>(xs: seq<T>, f: T -> nat): nat {
    if xs == [] then 0 else SumOver(xs[..|xs| - 1], f) + f(xs[|xs| - 1])
  }

  function PartCount(s: Subsystem): nat { |s.parts| }
  function AssemblyCount(s: Subsystem): nat { |s.assemblies| }
  function PartsIn(p: Project): nat { SumOver(p.subsystems, PartCount) }
  function AssembliesIn(p: Project): nat { SumOver(p.subsystems, AssemblyCount) }
  function SubsystemCount(p: Project): nat { |p.subsystems| }

  /** The in-memory branch of get_database_summary. */
  function Summary(ps: seq<Project>): DatabaseSummary {
    DatabaseSummary(SumOver(ps, PartsIn), SumOver(ps, AssembliesIn), SumOver(ps, SubsystemCount), |ps|, ps)
  }

  // ---------------------------------------------------------------------------
  // Consistency rules

  /** The family rules create_project enforces, as they hold of the stored projects. */
  predicate FamilyRules(ps: seq<Project>) {
    && (forall i :: 0 <= i < |ps| && ps[i].identifier == Team172 ==> HasCode(ps[i].projectCode))
    && (forall i :: 0 <= i < |ps| && ps[i].identifier == Nfr ==> !HasCode(ps[i].projectCode))
    && (forall i, j :: 0 <= i < j < |ps| && ps[i].identifier == Team172 && ps[j].identifier == Team172
          ==> ps[i].projectCode != ps[j].projectCode)
    && (forall i, j :: 0 <= i < j < |ps| ==> !(ps[i].identifier == Nfr && ps[j].identifier == Nfr))
  }

  /** Every subsystem number lies in its family's range. */
  predicate NumbersInRange(ps: seq<Project>) {
    forall i, j :: 0 <= i < |ps| && 0 <= j < |ps[i].subsystems| ==>
      0 <= ps[i].subsystems[j].number <= MaxSubsystem(ps[i].identifier)
  }

  /** No two subsystems of one numbering scope share a number. */
  predicate NumbersUnique(ps: seq<Project>) {
    forall i1, j1, i2, j2 ::
      && 0 <= i1 < |ps| && 0 <= j1 < |ps[i1].subsystems|
      && 0 <= i2 < |ps| && 0 <= j2 < |ps[i2].subsystems|
      && (i1 != i2 || j1 != j2)
      && InScope(ps[i2], ps[i1].identifier, ps[i1].projectCode)
      ==> ps[i1].subsystems[j1].number != ps[i2].subsystems[j2].number
  }

  predicate Consistent(ps: seq<Project>) {
    DistinctIds(ps) && FamilyRules(ps) && NumbersInRange(ps) && NumbersUnique(ps)
  }

  // ---------------------------------------------------------------------------
  // The allocator

  /** Some subsystem of a project in the scope of (identifier, code) carries number n. */
  predicate NumberUsed(ps: seq<Project>, identifier: Identifier, code: Option<string>, n: int) {
    exists i, j :: 0 <= i < |ps| && InScope(ps[i], identifier, code) && 0 <= j < |ps[i].subsystems|
                   && ps[i].subsystems[j].number == n
  }

  lemma {:induction false} NumbersOfMeaning(subs: seq<Subsystem>, n: int)
    ensures n in NumbersOf(subs) <==> exists j :: 0 <= j < |subs| && subs[j].number == n
  {
    if subs != [] {
      var init := subs[..|subs| - 1];
      NumbersOfMeaning(init, n);
      if n in NumbersOf(init) {
        var j :| 0 <= j < |init| && init[j].number == n;
        assert subs[j] == init[j];
      }
      if exists j :: 0 <= j < |subs| && subs[j].number == n {
        var j :| 0 <= j < |subs| && subs[j].number == n;
        if j < |init| {
          assert init[j] == subs[j];
        }
      }
    }
  }

  /** The allocator's `existing_numbers` holds exactly the numbers the scope's subsystems carry. */
  lemma {:induction false} UsedNumbersMeaning(ps: seq<Project>, identifier: Identifier, code: Option<string>, n: int)
    ensures n in UsedNumbers(ps, identifier, code) <==> NumberUsed(ps, identifier, code, n)
  {
    if ps != [] {
      var init := ps[..|ps| - 1];
      var last := ps[|ps| - 1];
      UsedNumbersMeaning(init, identifier, code, n);
      NumbersOfMeaning(last.subsystems, n);
      if NumberUsed(init, identifier, code, n) {
        var i, j :| 0 <= i < |init| && InScope(init[i], identifier, code) && 0 <= j < |init[i].subsystems|
                    && init[i].subsystems[j].number == n;
        assert ps[i] == init[i];
      }
      if InScope(last, identifier, code) && n in NumbersOf(last.subsystems) {
        var j :| 0 <= j < |last.subsystems| && last.subsystems[j].number == n;
        assert ps[|ps| - 1] == last;
      }
      if NumberUsed(ps, identifier, code, n) {
        var i, j :| 0 <= i < |ps| && InScope(ps[i], identifier, code) && 0 <= j < |ps[i].subsystems|
                    && ps[i].subsystems[j].number == n;
        if i < |init| {
          assert init[i] == ps[i];
        }
      }
    }
  }

  /**
   * generate_subsystem_number returns the smallest n of [0, max] that no
   * subsystem of the scope carries (max is 99 for '172' and 9999 for 'nfr'),
   * and raises exactly when every number of [0, max] is taken.
   */
  lemma SubsystemNumberSpec(ps: seq<Project>, identifier: Identifier, code: Option<string>)
    ensures var r := SubsystemNumber(ps, identifier, code);
            && (r.Some? ==> && r.value <= MaxSubsystem(identifier)
                            && !NumberUsed(ps, identifier, code, r.value)
                            && forall m :: 0 <= m < r.value ==> NumberUsed(ps, identifier, code, m))
            && (r.None? <==> forall m :: 0 <= m <= MaxSubsystem(identifier) ==> NumberUsed(ps, identifier, code, m))
  {
    var r := SubsystemNumber(ps, identifier, code);
    forall m ensures m in UsedNumbers(ps, identifier, code) <==> NumberUsed(ps, identifier, code, m) {
      UsedNumbersMeaning(ps, identifier, code, m);
    }
  }

  /** Projects outside the scope, wherever they stand in the store, do not change the allocated number. */
  lemma OutOfScopeIgnored(a: seq<Project>, q: Project, b: seq<Project>, identifier: Identifier, code: Option<string>)
    requires !InScope(q, identifier, code)
    ensures SubsystemNumber(a + [q] + b, identifier, code) == SubsystemNumber(a + b, identifier, code)
  {
    var withQ := a + [q] + b;
    var without := a + b;
    forall n ensures n in UsedNumbers(withQ, identifier, code) <==> n in UsedNumbers(without, identifier, code) {
      UsedNumbersMeaning(withQ, identifier, code, n);
      UsedNumbersMeaning(without, identifier, code, n);
      if NumberUsed(withQ, identifier, code, n) {
        var i, j :| 0 <= i < |withQ| && InScope(withQ[i], identifier, code) && 0 <= j < |withQ[i].subsystems|
                    && withQ[i].subsystems[j].number == n;
        var k := if i < |a| then i else i - 1;
        assert without[k] == withQ[i];
      }
      if NumberUsed(without, identifier, code, n) {
        var i, j :| 0 <= i < |without| && InScope(without[i], identifier, code) && 0 <= j < |without[i].subsystems|
                    && without[i].subsystems[j].number == n;
        var k := if i < |a| then i else i + 1;
        assert withQ[k] == without[i];
      }
    }
    assert UsedNumbers(withQ, identifier, code) == UsedNumbers(without, identifier, code);
  }

  // ---------------------------------------------------------------------------
  // What each request does to the store

  /**
   * create_project answers 400 and leaves the store as it was exactly when a
   * competition project comes without a code or with a code already in use,
   * or a continuing project comes with a code or when one already exists;
   * otherwise it adds exactly one project, with no subsystems, after the
   * existing ones.
   */
  lemma CreateProjectOutcome(ps: seq<Project>, projectId: string, data: ProjectCreate)
    ensures var st := CreateProjectStep(ps, projectId, data);
            && (st.reply.Failure? <==>
                 || (data.identifier == Team172 && (!HasCode(data.projectCode) || CodeTaken(ps, data.projectCode)))
                 || (data.identifier == Nfr && (HasCode(data.projectCode) || NfrExists(ps))))
            && (st.reply.Failure? ==> st.reply.error.status == 400 && st.after == ps)
            && (st.reply.Success? ==>
                 && |st.after| == |ps| + 1
                 && st.after[..|ps|] == ps
                 && st.after[|ps|] == st.reply.value
                 && st.reply.value == NewProject(projectId, data))
  {
    var st := CreateProjectStep(ps, projectId, data);
    if st.reply.Success? {
      assert st.after[..|ps|] == ps;
    }
  }

  /**
   * create_subsystem answers 404 for an unknown project and 500 when the
   * scope's numbers are exhausted, leaving the store as it was; otherwise it
   * appends exactly one subsystem, with no parts or assemblies, to that
   * project, numbered with a number no subsystem of its scope carries, and
   * changes nothing else.
   */
  lemma CreateSubsystemOutcome(ps: seq<Project>, projectId: string, subsystemId: string, name: string)
    ensures var st := CreateSubsystemStep(ps, projectId, subsystemId, name);
            var pi := ProjectIndex(ps, projectId);
            && (pi.None? ==> st.reply == Failure(HttpError(404, ProjectNotFound)) && st.after == ps)
            && (pi.Some? ==>
                 var p := ps[pi.value];
                 && (st.reply.Failure? <==>
                      forall m :: 0 <= m <= MaxSubsystem(p.identifier) ==> NumberUsed(ps, p.identifier, p.projectCode, m))
                 && (st.reply.Failure? ==> st.reply == Failure(HttpError(500, SubsystemFailed)) && st.after == ps)
                 && (st.reply.Success? ==>
                      var s := st.reply.value;
                      && s.id == subsystemId && s.name == name && s.parts == [] && s.assemblies == []
                      && SubsystemNumber(ps, p.identifier, p.projectCode) == Some(s.number)
                      && 0 <= s.number <= MaxSubsystem(p.identifier)
                      && !NumberUsed(ps, p.identifier, p.projectCode, s.number)
                      && (forall m :: 0 <= m < s.number ==> NumberUsed(ps, p.identifier, p.projectCode, m))
                      && |st.after| == |ps|
                      && (forall k :: 0 <= k < |ps| && k != pi.value ==> st.after[k] == ps[k])
                      && st.after[pi.value] == p.(subsystems := p.subsystems + [s])))
  {
    var pi := ProjectIndex(ps, projectId);
    if pi.Some? {
      var p := ps[pi.value];
      SubsystemNumberSpec(ps, p.identifier, p.projectCode);
    }
  }

  /**
   * create_part answers 404 for an unknown project or subsystem and leaves the
   * store as it was; otherwise it appends exactly one part to the first
   * subsystem of the project whose id matches, and changes nothing else: not
   * that subsystem's other fields, not its sibling subsystems, not the other
   * projects.
   */
  lemma CreatePartOutcome(ps: seq<Project>, projectId: string, subsystemId: string, partId: string,
                          data: PartCreate)
    ensures var st := CreatePartStep(ps, projectId, subsystemId, partId, data);
            var pi := ProjectIndex(ps, projectId);
            && (pi.None? ==> st.reply == Failure(HttpError(404, ProjectNotFound)) && st.after == ps)
            && (pi.Some? ==>
                 var p := ps[pi.value];
                 var sj := FirstSubsystemWithId(p.subsystems, subsystemId);
                 && (sj.None? ==> st.reply == Failure(HttpError(404, SubsystemNotFound)) && st.after == ps)
                 && (sj.Some? ==>
                      var s := p.subsystems[sj.value];
                      && st.reply == Success(NewPart(partId, data))
                      && |st.after| == |ps|
                      && (forall k :: 0 <= k < |ps| && k != pi.value ==> st.after[k] == ps[k])
                      && st.after[pi.value].(subsystems := p.subsystems) == p
                      && |st.after[pi.value].subsystems| == |p.subsystems|
                      && (forall k :: 0 <= k < |p.subsystems| && k != sj.value ==>
                            st.after[pi.value].subsystems[k] == p.subsystems[k])
                      && st.after[pi.value].subsystems[sj.value].parts == s.parts + [NewPart(partId, data)]
                      && st.after[pi.value].subsystems[sj.value].(parts := s.parts) == s))
  {
  }

  /** create_assembly: as create_part, appending to the subsystem's assemblies. */
  lemma CreateAssemblyOutcome(ps: seq<Project>, projectId: string, subsystemId: string, assemblyId: string,
                              data: AssemblyCreate)
    ensures var st := CreateAssemblyStep(ps, projectId, subsystemId, assemblyId, data);
            var pi := ProjectIndex(ps, projectId);
            && (pi.None? ==> st.reply == Failure(HttpError(404, ProjectNotFound)) && st.after == ps)
            && (pi.Some? ==>
                 var p := ps[pi.value];
                 var sj := FirstSubsystemWithId(p.subsystems, subsystemId);
                 && (sj.None? ==> st.reply == Failure(HttpError(404, SubsystemNotFound)) && st.after == ps)
                 && (sj.Some? ==>
                      var s := p.subsystems[sj.value];
                      && st.reply == Success(NewAssembly(assemblyId, data))
                      && |st.after| == |ps|
                      && (forall k :: 0 <= k < |ps| && k != pi.value ==> st.after[k] == ps[k])
                      && st.after[pi.value].(subsystems := p.subsystems) == p
                      && |st.after[pi.value].subsystems| == |p.subsystems|
                      && (forall k :: 0 <= k < |p.subsystems| && k != sj.value ==>
                            st.after[pi.value].subsystems[k] == p.subsystems[k])
                      && st.after[pi.value].subsystems[sj.value].assemblies
                           == s.assemblies + [NewAssembly(assemblyId, data)]
                      && st.after[pi.value].subsystems[sj.value].(assemblies := s.assemblies) == s))
  {
  }

  // ---------------------------------------------------------------------------
  // The summary totals under the create requests

  lemma SumOverAppend<T>(xs: seq<T>, x: T, f: T -> nat)
    ensures SumOver(xs + [x], f) == SumOver(xs, f) + f(x)
  {
    assert (xs + [x])[..|xs|] == xs;
  }

  /** Replacing one element changes the sum by exactly the difference at that element. */
  lemma {:induction false} SumOverUpdate<T>(xs: seq<T>, i: nat, x: T, f: T -> nat)
    requires i < |xs|
    ensures SumOver(xs[i := x], f) + f(xs[i]) == SumOver(xs, f) + f(x)
  {
    var n := |xs|;
    var ys := xs[i := x];
    assert ys[..n - 1] == if i < n - 1 then xs[..n - 1][i := x] else xs[..n - 1];
    if i < n - 1 {
      SumOverUpdate(xs[..n - 1], i, x, f);
    }
  }

  /** A new project adds one to the project count and nothing to the other totals. */
  lemma CreateProjectTotals(ps: seq<Project>, projectId: string, data: ProjectCreate)
    ensures var st := CreateProjectStep(ps, projectId, data);
            var before, after := Summary(ps), Summary(st.after);
            && (st.reply.Failure? ==> after == before)
            && (st.reply.Success? ==>
                 && after.totalProjects == before.totalProjects + 1
                 && after.totalSubsystems == before.totalSubsystems
                 && after.totalParts == before.totalParts
                 && after.totalAssemblies == before.totalAssemblies)
  {
    var st := CreateProjectStep(ps, projectId, data);
    if st.reply.Success? {
      var p := st.reply.value;
      SumOverAppend(ps, p, PartsIn);
      SumOverAppend(ps, p, AssembliesIn);
      SumOverAppend(ps, p, SubsystemCount);
    }
  }

  /** A new subsystem adds one to the subsystem count and nothing to the other totals. */
  lemma CreateSubsystemTotals(ps: seq<Project>, projectId: string, subsystemId: string, name: string)
    ensures var st := CreateSubsystemStep(ps, projectId, subsystemId, name);
            var before, after := Summary(ps), Summary(st.after);
            && (st.reply.Failure? ==> after == before)
            && (st.reply.Success? ==>
                 && after.totalProjects == before.totalProjects
                 && after.totalSubsystems == before.totalSubsystems + 1
                 && after.totalParts == before.totalParts
                 && after.totalAssemblies == before.totalAssemblies)
  {
    var st := CreateSubsystemStep(ps, projectId, subsystemId, name);
    if st.reply.Success? {
      var i := ProjectIndex(ps, projectId).value;
      var p := ps[i];
      var s := st.reply.value;
      var p' := p.(subsystems := p.subsystems + [s]);
      assert st.after == ps[i := p'];
      SumOverAppend(p.subsystems, s, PartCount);
      SumOverAppend(p.subsystems, s, AssemblyCount);
      SumOverUpdate(ps, i, p', PartsIn);
      SumOverUpdate(ps, i, p', AssembliesIn);
      SumOverUpdate(ps, i, p', SubsystemCount);
    }
  }

  /** A new part adds one to the part count and nothing to the other totals. */
  lemma CreatePartTotals(ps: seq<Project>, projectId: string, subsystemId: string, partId: string,
                         data: PartCreate)
    ensures var st := CreatePartStep(ps, projectId, subsystemId, partId, data);
            var before, after := Summary(ps), Summary(st.after);
            && (st.reply.Failure? ==> after == before)
            && (st.reply.Success? ==>
                 && after.totalProjects == before.totalProjects
                 && after.totalSubsystems == before.totalSubsystems
                 && after.totalParts == before.totalParts + 1
                 && after.totalAssemblies == before.totalAssemblies)
  {
    var st := CreatePartStep(ps, projectId, subsystemId, partId, data);
    if st.reply.Success? {
      var i := ProjectIndex(ps, projectId).value;
      var p := ps[i];
      var j := FirstSubsystemWithId(p.subsystems, subsystemId).value;
      var s := p.subsystems[j];
      var s' := s.(parts := s.parts + [st.reply.value]);
      var p' := p.(subsystems := p.subsystems[j := s']);
      assert st.after == ps[i := p'];
      SumOverUpdate(p.subsystems, j, s', PartCount);
      SumOverUpdate(p.subsystems, j, s', AssemblyCount);
      SumOverUpdate(ps, i, p', PartsIn);
      SumOverUpdate(ps, i, p', AssembliesIn);
      SumOverUpdate(ps, i, p', SubsystemCount);
    }
  }

  /** A new assembly adds one to the assembly count and nothing to the other totals. */
  lemma CreateAssemblyTotals(ps: seq<Project>, projectId: string, subsystemId: string, assemblyId: string,
                             data: AssemblyCreate)
    ensures var st := CreateAssemblyStep(ps, projectId, subsystemId, assemblyId, data);
            var before, after := Summary(ps), Summary(st.after);
            && (st.reply.Failure? ==> after == before)
            && (st.reply.Success? ==>
                 && after.totalProjects == before.totalProjects
                 && after.totalSubsystems == before.totalSubsystems
                 && after.totalParts == before.totalParts
                 && after.totalAssemblies == before.totalAssemblies + 1)
  {
    var st := CreateAssemblyStep(ps, projectId, subsystemId, assemblyId, data);
    if st.reply.Success? {
      var i := ProjectIndex(ps, projectId).value;
      var p := ps[i];
      var j := FirstSubsystemWithId(p.subsystems, subsystemId).value;
      var s := p.subsystems[j];
      var s' := s.(assemblies := s.assemblies + [st.reply.value]);
      var p' := p.(subsystems := p.subsystems[j := s']);
      assert st.after == ps[i := p'];
      SumOverUpdate(p.subsystems, j, s', PartCount);
      SumOverUpdate(p.subsystems, j, s', AssemblyCount);
      SumOverUpdate(ps, i, p', PartsIn);
      SumOverUpdate(ps, i, p', AssembliesIn);
      SumOverUpdate(ps, i, p', SubsystemCount);
    }
  }

  // ---------------------------------------------------------------------------
  // The consistency rules are kept by every request

  /** qs has the projects of ps, with the same ids, families, codes and subsystem numbers. */
  predicate SameNumbering(ps: seq<Project>, qs: seq<Project>) {
    && |ps| == |qs|
    && forall i :: 0 <= i < |ps| ==>
         && qs[i].id == ps[i].id
         && qs[i].identifier == ps[i].identifier
         && qs[i].projectCode == ps[i].projectCode
         && |qs[i].subsystems| == |ps[i].subsystems|
         && forall j :: 0 <= j < |ps[i].subsystems| ==> qs[i].subsystems[j].number == ps[i].subsystems[j].number
  }

  lemma ConsistentUnderSameNumbering(ps: seq<Project>, qs: seq<Project>)
    requires Consistent(ps) && SameNumbering(ps, qs)
    ensures Consistent(qs)
  {
    forall i1, j1, i2, j2 |
      && 0 <= i1 < |qs| && 0 <= j1 < |qs[i1].subsystems|
      && 0 <= i2 < |qs| && 0 <= j2 < |qs[i2].subsystems|
      && (i1 != i2 || j1 != j2)
      && InScope(qs[i2], qs[i1].identifier, qs[i1].projectCode)
      ensures qs[i1].subsystems[j1].number != qs[i2].subsystems[j2].number
    {
      assert ps[i1].subsystems[j1].number != ps[i2].subsystems[j2].number;
    }
  }

  /** Starting from a consistent store and a fresh id, create_project leaves a consistent store. */
  lemma CreateProjectKeepsConsistent(ps: seq<Project>, projectId: string, data: ProjectCreate)
    requires Consistent(ps)
    requires forall i :: 0 <= i < |ps| ==> ps[i].id != projectId
    ensures Consistent(CreateProjectStep(ps, projectId, data).after)
  {
    var st := CreateProjectStep(ps, projectId, data);
    if st.reply.Success? {
      var qs := st.after;
      var n := |ps|;
      assert qs == ps + [NewProject(projectId, data)];
      forall i, j | 0 <= i < j < |qs| && qs[i].identifier == Team172 && qs[j].identifier == Team172
        ensures qs[i].projectCode != qs[j].projectCode
      {
        if j == n {
          assert !CodeTaken(ps, data.projectCode);
          assert ps[i].identifier == Team172;
        }
      }
      forall i, j | 0 <= i < j < |qs| ensures !(qs[i].identifier == Nfr && qs[j].identifier == Nfr) {
        if j == n && qs[j].identifier == Nfr {
          assert !NfrExists(ps);
          assert ps[i].identifier != Nfr;
        }
      }
    }
  }

  /**
   * Appending to project i a subsystem whose number is in range and unused in
   * that project's scope keeps a store consistent.
   */
  lemma AppendSubsystemKeepsConsistent(ps: seq<Project>, i: nat, s: Subsystem)
    requires Consistent(ps) && i < |ps|
    requires 0 <= s.number <= MaxSubsystem(ps[i].identifier)
    requires !NumberUsed(ps, ps[i].identifier, ps[i].projectCode, s.number)
    ensures Consistent(ps[i := ps[i].(subsystems := ps[i].subsystems + [s])])
  {
    var p := ps[i];
    var qs := ps[i := p.(subsystems := p.subsystems + [s])];
    var last := |p.subsystems|;
    assert forall k :: 0 <= k < |qs| ==>
      qs[k].id == ps[k].id && qs[k].identifier == ps[k].identifier && qs[k].projectCode == ps[k].projectCode;
    assert forall k, j :: 0 <= k < |qs| && 0 <= j < |ps[k].subsystems| ==> qs[k].subsystems[j] == ps[k].subsystems[j];
    forall i1, j1, i2, j2 |
      && 0 <= i1 < |qs| && 0 <= j1 < |qs[i1].subsystems|
      && 0 <= i2 < |qs| && 0 <= j2 < |qs[i2].subsystems|
      && (i1 != i2 || j1 != j2)
      && InScope(qs[i2], qs[i1].identifier, qs[i1].projectCode)
      ensures qs[i1].subsystems[j1].number != qs[i2].subsystems[j2].number
    {
      if i1 == i && j1 == last {
        assert j2 < |ps[i2].subsystems|;
        assert InScope(ps[i2], p.identifier, p.projectCode);
      } else if i2 == i && j2 == last {
        assert j1 < |ps[i1].subsystems|;
        assert InScope(ps[i1], p.identifier, p.projectCode);
      } else {
        assert ps[i1].subsystems[j1].number != ps[i2].subsystems[j2].number;
      }
    }
  }

  /**
   * Starting from a consistent store, create_subsystem leaves a consistent
   * store: in particular no two subsystems of one scope share a number.
   */
  lemma CreateSubsystemKeepsConsistent(ps: seq<Project>, projectId: string, subsystemId: string, name: string)
    requires Consistent(ps)
    ensures Consistent(CreateSubsystemStep(ps, projectId, subsystemId, name).after)
  {
    var st := CreateSubsystemStep(ps, projectId, subsystemId, name);
    if st.reply.Success? {
      var i := ProjectIndex(ps, projectId).value;
      SubsystemNumberSpec(ps, ps[i].identifier, ps[i].projectCode);
      AppendSubsystemKeepsConsistent(ps, i, st.reply.value);
    }
  }

  /** Starting from a consistent store, create_part leaves a consistent store. */
  lemma CreatePartKeepsConsistent(ps: seq<Project>, projectId: string, subsystemId: string, partId: string,
                                  data: PartCreate)
    requires Consistent(ps)
    ensures Consistent(CreatePartStep(ps, projectId, subsystemId, partId, data).after)
  {
    var st := CreatePartStep(ps, projectId, subsystemId, partId, data);
    if st.reply.Success? {
      assert SameNumbering(ps, st.after);
      ConsistentUnderSameNumbering(ps, st.after);
    }
  }

  /** Starting from a consistent store, create_assembly leaves a consistent store. */
  lemma CreateAssemblyKeepsConsistent(ps: seq<Project>, projectId: string, subsystemId: string, assemblyId: string,
                                      data: AssemblyCreate)
    requires Consistent(ps)
    ensures Consistent(CreateAssemblyStep(ps, projectId, subsystemId, assemblyId, data).after)
  {
    var st := CreateAssemblyStep(ps, projectId, subsystemId, assemblyId, data);
    if st.reply.Success? {
      assert SameNumbering(ps, st.after);
      ConsistentUnderSameNumbering(ps, st.after);
    }
  }

  // ---------------------------------------------------------------------------
  // The sample data stored at start-up

  function SampleProject172(id: string): Project {
    Project(id, 2025, Team172, Some("25A"), "172 Project 25A", "Project 25A for the 172 team.",
            [Subsystem("s1", "Drivetrain", 1,
                       [Part("p1", "Drive Wheel", "Main drive wheel for robot", None, Some("Aluminum"), None, None)],
                       [Assembly("a1", "Gearbox Assembly", "Main gearbox for drivetrain", None, None)])])
  }

  function SampleProjectNfr(id: string): Project {
    Project(id, 2023, Nfr, None, "NFR Project", "The central project for all continuing CAD development.",
            [Subsystem("s2", "Common Components", 0,
                       [Part("p2", "Standard Bracket", "Reusable mounting bracket", None, Some("Steel"), None, None)],
                       [])])
  }

  /**
   * The storage init_memory_sample_data leaves behind, starting from the empty
   * dictionary, under the two uuids it draws. Should they collide, the second
   * assignment overwrites the first entry.
   */
  function SampleData(project1Id: string, project2Id: string): seq<Project> {
    if project1Id == project2Id then [SampleProjectNfr(project2Id)]
    else [SampleProject172(project1Id), SampleProjectNfr(project2Id)]
  }

  lemma NumbersOfSingle(s: Subsystem)
    ensures NumbersOf([s]) == {s.number}
  {
    assert [s][..0] == [];
  }

  lemma UsedNumbersOfPair(a: Project, b: Project, identifier: Identifier, code: Option<string>)
    ensures UsedNumbers([a, b], identifier, code)
            == (if InScope(a, identifier, code) then NumbersOf(a.subsystems) else {})
               + (if InScope(b, identifier, code) then NumbersOf(b.subsystems) else {})
  {
    assert [a, b][..1] == [a] && [a][..0] == [];
    assert UsedNumbers([a], identifier, code)
           == (if InScope(a, identifier, code) then NumbersOf(a.subsystems) else {});
  }

  lemma SumOverPair<T>(x: T, y: T, f: T -> nat)
    ensures SumOver([x, y], f) == f(x) + f(y)
  {
    assert [x, y][..1] == [x] && [x][..0] == [];
    assert SumOver([x], f) == f(x);
  }

  lemma SumOverSingle<T>(x: T, f: T -> nat)
    ensures SumOver([x], f) == f(x)
  {
    assert [x][..0] == [];
  }

  /** The sample data obeys every consistency rule the create requests keep. */
  lemma SampleDataConsistent(project1Id: string, project2Id: string)
    ensures Consistent(SampleData(project1Id, project2Id))
  {
    var p1, p2 := SampleProject172(project1Id), SampleProjectNfr(project2Id);
    assert p1.identifier == Team172 && p1.projectCode == Some("25A") && HasCode(p1.projectCode);
    assert p2.identifier == Nfr && p2.projectCode == None;
    assert |p1.subsystems| == 1 && p1.subsystems[0].number == 1;
    assert |p2.subsystems| == 1 && p2.subsystems[0].number == 0;
  }

  /**
   * On the sample data, the next subsystem of project 25A gets number 0 (its
   * only subsystem holds 1), and the next continuing subsystem gets number 1.
   */
  lemma SampleDataNextSubsystems(project1Id: string, project2Id: string)
    requires project1Id != project2Id
    ensures SubsystemNumber(SampleData(project1Id, project2Id), Team172, Some("25A")) == Some(0)
    ensures SubsystemNumber(SampleData(project1Id, project2Id), Nfr, None) == Some(1)
  {
    var p1, p2 := SampleProject172(project1Id), SampleProjectNfr(project2Id);
    NumbersOfSingle(p1.subsystems[0]);
    NumbersOfSingle(p2.subsystems[0]);
    UsedNumbersOfPair(p1, p2, Team172, Some("25A"));
    UsedNumbersOfPair(p1, p2, Nfr, None);
    assert UsedNumbers([p1, p2], Team172, Some("25A")) == {1};
    assert UsedNumbers([p1, p2], Nfr, None) == {0};
    LowestFreeIs(0, {1}, 100);
    LowestFreeIs(1, {0}, 10000);
  }

  /** The summary of the sample data: two projects, two subsystems, two parts and one assembly. */
  lemma SampleDataSummary(project1Id: string, project2Id: string)
    requires project1Id != project2Id
    ensures var s := Summary(SampleData(project1Id, project2Id));
            s.totalProjects == 2 && s.totalSubsystems == 2 && s.totalParts == 2 && s.totalAssemblies == 1
  {
    var p1, p2 := SampleProject172(project1Id), SampleProjectNfr(project2Id);
    SumOverSingle(p1.subsystems[0], PartCount);
    SumOverSingle(p2.subsystems[0], PartCount);
    SumOverSingle(p1.subsystems[0], AssemblyCount);
    SumOverSingle(p2.subsystems[0], AssemblyCount);
    SumOverPair(p1, p2, PartsIn);
    SumOverPair(p1, p2, AssembliesIn);
    SumOverPair(p1, p2, SubsystemCount);
  }
}
