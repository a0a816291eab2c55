/**
 * The API server's in-memory storage and its request handlers, changing the
 * stored projects in place. Each handler is proved against the matching step
 * of module Hierarchy and keeps the store consistent.
 */
module HierarchyStore {
  import opened Basics
  import opened Slots
  import opened Hierarchy

  /** The loop that looks for a subsystem by id and breaks at the first match. */
  method FindSubsystem(subs: seq<Subsystem>, subsystemId: string) returns (found: Option<nat>)
    ensures found == FirstSubsystemWithId(subs, subsystemId)
  {
    found := None;
    for j := 0 to |subs|
      invariant forall k :: 0 <= k < j ==> subs[k].id != subsystemId
    {
      if subs[j].id == subsystemId {
        found := Some(j);
        break;
      }
    }
  }

  class Store {
    /** `projects_storage`, in insertion order. */
    var projects: seq<Project>

    ghost predicate Valid()
      reads this
    {
      Consistent(projects)
    }

    constructor ()
      ensures Valid() && projects == []
    {
      projects := [];
    }

    /**
     * init_memory_sample_data, which runs once at start-up on the empty
     * storage: two dictionary assignments under fresh uuids, the second
     * overwriting the first should the uuids collide.
     */
    method LoadSampleData(project1Id: string, project2Id: string)
      requires projects == []
      modifies this
      ensures projects == SampleData(project1Id, project2Id)
      ensures Valid()
    {
      projects := projects + [SampleProject172(project1Id)];
      var project2 := SampleProjectNfr(project2Id);
      if project2Id == project1Id {
        projects := projects[0 := project2];
      } else {
        projects := projects + [project2];
      }
      SampleDataConsistent(project1Id, project2Id);
    }

    /** The in-memory generate_subsystem_number: collect the scope's numbers, then scan for the first free one. */
    method GenerateSubsystemNumber(identifier: Identifier, code: Option<string>) returns (r: Option<nat>)
      ensures r == SubsystemNumber(projects, identifier, code)
    {
      var maxSubsystem := if identifier == Team172 then 99 else 9999;
      var existing: set<int> := {};
      for pi := 0 to |projects|
        invariant existing == UsedNumbers(projects[..pi], identifier, code)
      {
        assert projects[..pi + 1][..pi] == projects[..pi];
        var project := projects[pi];
        if project.identifier == identifier && (identifier == Nfr || project.projectCode == code) {
          for si := 0 to |project.subsystems|
            invariant existing == UsedNumbers(projects[..pi], identifier, code) + NumbersOf(project.subsystems[..si])
          {
            assert project.subsystems[..si + 1][..si] == project.subsystems[..si];
            existing := existing + {project.subsystems[si].number};
          }
          assert project.subsystems[..|project.subsystems|] == project.subsystems;
        }
      }
      assert projects[..|projects|] == projects;
      r := FirstFree(existing, maxSubsystem + 1);
    }

    /** The project id is a fresh uuid4, passed in. */
    method CreateProject(projectId: string, data: ProjectCreate) returns (r: Result<Project, HttpError>)
      requires Valid()
      requires forall i :: 0 <= i < |projects| ==> projects[i].id != projectId
      modifies this
      ensures Valid()
      ensures Step(r, projects) == CreateProjectStep(old(projects), projectId, data)
    {
      if data.identifier == Team172 && !HasCode(data.projectCode) {
        return Failure(HttpError(400, MissingCode));
      }
      if data.identifier == Nfr && HasCode(data.projectCode) {
        return Failure(HttpError(400, UnexpectedCode));
      }
      if data.identifier == Team172 {
        for i := 0 to |projects|
          invariant forall k :: 0 <= k < i ==> !(projects[k].identifier == Team172 && projects[k].projectCode == data.projectCode)
        {
          if projects[i].identifier == Team172 && projects[i].projectCode == data.projectCode {
            return Failure(HttpError(400, DuplicateCode(data.projectCode.value)));
          }
        }
      }
      if data.identifier == Nfr {
        for i := 0 to |projects|
          invariant forall k :: 0 <= k < i ==> projects[k].identifier != Nfr
        {
          if projects[i].identifier == Nfr {
            return Failure(HttpError(400, NfrAlreadyExists));
          }
        }
      }
      var project := Project(projectId, data.year, data.identifier, data.projectCode, data.name, data.description, []);
      CreateProjectKeepsConsistent(projects, projectId, data);
      projects := projects + [project];
      return Success(project);
    }

    /** The subsystem id is a fresh uuid4, passed in. */
    method CreateSubsystem(projectId: string, subsystemId: string, name: string) returns (r: Result<Subsystem, HttpError>)
      requires Valid()
      modifies this
      ensures Valid()
      ensures Step(r, projects) == CreateSubsystemStep(old(projects), projectId, subsystemId, name)
    {
      var pi := ProjectIndex(projects, projectId);
      if pi.None? {
        return Failure(HttpError(404, ProjectNotFound));
      }
      var project := projects[pi.value];
      var number := GenerateSubsystemNumber(project.identifier, project.projectCode);
      if number.None? {
        return Failure(HttpError(500, SubsystemFailed));
      }
      var subsystem := Subsystem(subsystemId, name, number.value, [], []);
      CreateSubsystemKeepsConsistent(projects, projectId, subsystemId, name);
      projects := projects[pi.value := project.(subsystems := project.subsystems + [subsystem])];
      return Success(subsystem);
    }

    /** The part id is a fresh uuid4, passed in. */
    method CreatePart(projectId: string, subsystemId: string, partId: string, data: PartCreate)
      returns (r: Result<Part, HttpError>)
      requires Valid()
      modifies this
      ensures Valid()
      ensures Step(r, projects) == CreatePartStep(old(projects), projectId, subsystemId, partId, data)
    {
      var pi := ProjectIndex(projects, projectId);
      if pi.None? {
        return Failure(HttpError(404, ProjectNotFound));
      }
      var project := projects[pi.value];
      var found := FindSubsystem(project.subsystems, subsystemId);
      if found.None? {
        return Failure(HttpError(404, SubsystemNotFound));
      }
      var subsystem := project.subsystems[found.value];
      var part := Part(partId, data.name, data.description, data.drawing, data.material, data.stlFile, data.iconFile);
      CreatePartKeepsConsistent(projects, projectId, subsystemId, partId, data);
      projects := projects[pi.value := project.(subsystems := project.subsystems[found.value := subsystem.(parts := subsystem.parts + [part])])];
      return Success(part);
    }

    /** The assembly id is a fresh uuid4, passed in. */
    method CreateAssembly(projectId: string, subsystemId: string, assemblyId: string, data: AssemblyCreate)
      returns (r: Result<Assembly, HttpError>)
      requires Valid()
      modifies this
      ensures Valid()
      ensures Step(r, projects) == CreateAssemblyStep(old(projects), projectId, subsystemId, assemblyId, data)
    {
      var pi := ProjectIndex(projects, projectId);
      if pi.None? {
        return Failure(HttpError(404, ProjectNotFound));
      }
      var project := projects[pi.value];
      var found := FindSubsystem(project.subsystems, subsystemId);
      if found.None? {
        return Failure(HttpError(404, SubsystemNotFound));
      }
      var subsystem := project.subsystems[found.value];
      var assembly := Assembly(assemblyId, data.name, data.description, data.drawing, data.iconFile);
      CreateAssemblyKeepsConsistent(projects, projectId, subsystemId, assemblyId, data);
      projects := projects[pi.value := project.(subsystems := project.subsystems[found.value := subsystem.(assemblies := subsystem.assemblies + [assembly])])];
      return Success(assembly);
    }
  }
}
