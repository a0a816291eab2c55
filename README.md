# Onshape part manager: numbering and hierarchy store, in Dafny

This project models the numbering and consistency core of the Onshape part
manager's backend. The backend keeps engineering parts and assemblies under
subsystems, and subsystems under projects. There are two project families:

- `172` projects: competition projects. Each has a project code such as `25A`.
- `nfr` projects: a single continuing project, with no code.

The model covers two pieces of that backend.

1. **The in-memory hierarchy store** of the API server (`backend/app.py`):
   - the `projects_storage` dictionary of projects;
   - the lowest-free-slot subsystem-number allocator `generate_subsystem_number`;
   - the create handlers for projects, subsystems, parts and assemblies;
   - the totals of the database summary.

   Module `Hierarchy` (file `hierarchy.dfy`) gives:
   - the entities, taken from the dictionaries the handlers store;
   - each handler as a pure step from the old store to a reply and a new store;
   - the consistency rules those steps keep.

   Class `HierarchyStore.Store` (file `store.dfy`) holds the store as a field.
   Its handler methods change that field in place, and each is proved equal to
   its step. Every handler also keeps the store consistent:
   - at most one `nfr` project exists;
   - `172` codes are present and pairwise distinct;
   - an `nfr` project carries no code;
   - every subsystem number is in its family's range;
   - no two subsystems of one numbering scope share a number.

2. **The part/assembly number generator** `DatabaseManager.generate_part_number`
   (`backend/database.py`), in module `PartNumbers` (file `part_numbers.dfy`).
   It builds a fixed-width prefix:
   - `172-{code}-{P|A}{SS:02d}` for a `172` project;
   - `NFR-{SSSS:04d}-{P|A}` for an `nfr` project.

   It then reads the 3- or 4-digit suffix of every stored name that starts with
   that prefix, and returns the prefix followed by the smallest unused number,
   zero-padded. In the source, the stored names come from a database query.
   Here they are the parameter `names`: the names in the parts collection, or
   in the assemblies collection.

Two small modules are shared by both pieces:
- `Decimal` (`decimal.dfy`): zero-padded formatting and digit parsing, with
  round-trip lemmas in both directions.
- `Slots` (`slots.dfy`): the first-free scan, both as a function and as the
  source's loop.

`Basics` (`basics.dfy`) holds Option and Result.

Errors become values:
- The Python exceptions of the generator become `PartNumberError.ValueError` or
  `RuntimeError`, with the source's messages.
- The handlers' `HTTPException`s become `HttpError(status, detail)`.
- The allocator's `RuntimeError` inside `create_subsystem` is caught by the
  handler's generic `except Exception`. The handler then answers 500
  "Failed to create subsystem", and the model does the same.

Ids that the source draws from `uuid.uuid4()` are parameters of the handlers.
A new project's id must differ from every stored id.

The checks the code makes are narrow:
- create_project checks a `172` project code only for being present and
  non-empty.
- The part generator asks only that the code have at least 3 characters.
- Neither piece has a version check or a retry.
- Neither piece parses whole identifiers. The generator only reads the
  fixed-width suffix after a known prefix (`PartNumbers.SuffixOf`).
- An exhausted subsystem range answers HTTP 500 "Failed to create subsystem".

## Model

| member | source | states |
|---|---|---|
| `Decimal.Pad` | backend/database.py:103 | `f"{n:0Wd}"` for a number below 10^W is exactly W ASCII digits |
| `Decimal.DigitsValue` | backend/database.py:114 | the number denoted by a run of ASCII digits is below 10 to the power of its length |
| `Decimal.ParseNat` | backend/database.py:113-117 | `int(...)` of a slice gives a number exactly when the slice is a non-empty run of ASCII digits (otherwise ValueError), and the number is below 10^length |
| `Decimal.DigitsValueOfPad` | backend/database.py:122 | reading the digits of a padded number gives the number back |
| `Decimal.ParsePad` | backend/database.py:112-122 | format then parse: a zero-padded number of positive width parses back to itself |
| `Decimal.PadOfDigitsValue` | backend/database.py:137-147 | parse then format: a run of digits is the zero-padding of the number it denotes, at its own width |
| `Decimal.PadInjective` | backend/database.py:144-147 | two numbers with the same fixed-width text are equal |
| `Slots.LowestFree` | backend/app.py:131-136 | the scan's result is the smallest number of [0, bound) not in the used set; it is absent exactly when every number of the range is used |
| `Slots.LowestFreeIs` | backend/database.py:119-122 | the smallest free number is unique: any number that is smallest-free is the scan's result |
| `Slots.LowestFreeAfterTaking` | backend/database.py:144-147 | once the returned number is added to the used set, the next scan returns a strictly larger number or nothing |
| `Slots.LowestFreeRefillsHole` | backend/app.py:124-134 | used numbers are recomputed at each call, so a freed number is handed out again when every number below it is in use |
| `Slots.FirstFree` | backend/app.py:132-136 | the `for i in range(bound)` loop with early return computes the smallest free number, or reports that the range is full |
| `PartNumbers.ExistingNumbers` | backend/database.py:105-117 | the loop over stored names collects exactly the suffixes of the names that carry the prefix, are long enough, and have an all-digit suffix |
| `PartNumbers.GeneratePartNumber` | backend/database.py:53-149 | the generator returns or raises exactly what the specification function `PartNumber` gives for its arguments and the stored names |
| `PartNumbers.PartNumberRejects` | backend/database.py:80-97 | each ValueError is raised exactly when its check is the first to fail: a bad project type, then a bad item type, then a 172 code shorter than 3 characters, then a subsystem outside [0, 99] (172) or [0, 9999] (nfr) |
| `PartNumbers.SuffixOfFormatted` | backend/database.py:112-114 | a name built as prefix plus padded number yields that number as its suffix |
| `PartNumbers.PartNumberFor172` | backend/database.py:99-124 | for 172 the result starts with `172-{code}-{P\|A}{SS:02d}`, and its 3-digit suffix is the smallest number of [0, 999] no stored name of the scope holds; RuntimeError is raised exactly when all 1000 are taken |
| `PartNumbers.PartNumberForNfr` | backend/database.py:126-149 | for nfr the result starts with `NFR-{SSSS:04d}-{P\|A}`, and its 4-digit suffix is the smallest number of [0, 9999] no stored name of the scope holds; RuntimeError is raised exactly when all 10000 are taken |
| `PartNumbers.UsedSuffixesMeaning` | backend/database.py:110-117 | a number is counted as used exactly when some stored name holds it as its suffix, whatever the order of the names |
| `PartNumbers.UsedSuffixesIgnore` | backend/database.py:112-117 | names that hold no suffix of the scope add nothing to the used set |
| `PartNumbers.UnreadableNamesIgnored` | backend/database.py:112-117 | some stored names do not change the result: those without the prefix, those too short for the suffix, and those whose suffix is not all digits |
| `PartNumbers.NextNumberDiffers` | backend/database.py:103-122 | after the generated name is stored, the next call in the same scope gives a strictly larger suffix or raises RuntimeError, so it never repeats the name |
| `PartNumbers.FirstPartExample` | backend/database.py:99-122 | the first part of subsystem 0 of a new project 25A is `172-25A-P00000` |
| `PartNumbers.HoleFillingExample` | backend/database.py:119-122 | with 000, 001 and 003 stored in scope `172-24A-P01`, the generator returns `172-24A-P01002` |
| `Hierarchy.ProjectIndex` | backend/app.py:525-528 | lookup by project id finds a project with that id, or reports that no stored project has it |
| `Hierarchy.FirstSubsystemWithId` | backend/app.py:569-577 | the search for a subsystem settles on the first subsystem whose id matches, or reports that none matches |
| `Hierarchy.NumbersOfMeaning` | backend/app.py:128-129 | the numbers collected from a project are exactly those its subsystems carry |
| `Hierarchy.UsedNumbersMeaning` | backend/app.py:124-129 | `existing_numbers` holds exactly the numbers carried by subsystems of projects in the scope: all nfr projects, or the 172 projects with the same code |
| `Hierarchy.SubsystemNumberSpec` | backend/app.py:116-136 | the allocator returns the smallest n in [0, max] that no subsystem of the scope carries, with max 99 for 172 and 9999 for nfr; it raises exactly when every number in [0, max] is taken |
| `Hierarchy.OutOfScopeIgnored` | backend/app.py:125-129 | projects outside the scope do not change the allocated number, wherever they stand in the store |
| `Hierarchy.CreateProjectOutcome` | backend/app.py:470-503 | create_project answers 400 and leaves the store unchanged exactly in four cases: a 172 project without a code, a 172 project whose code is already used, an nfr project with a code, or a second nfr project. Otherwise it adds the project built from the request (the given id, year, family, code, name and description, and no subsystems) after the existing ones, which are unchanged |
| `Hierarchy.CreateSubsystemOutcome` | backend/app.py:525-544 | create_subsystem answers 404 for an unknown project and 500 when the scope is full, leaving the store unchanged. Otherwise it appends one empty subsystem to that project. Its number is the allocator's answer: in range, unused in its scope, with every smaller number used. Nothing else changes |
| `Hierarchy.CreatePartOutcome` | backend/app.py:564-592 | create_part answers 404 for an unknown project or subsystem, leaving the store unchanged. Otherwise it appends one part to the first subsystem with that id. The subsystem's other fields, its sibling subsystems and the other projects are unchanged |
| `Hierarchy.CreateAssemblyOutcome` | backend/app.py:606-632 | create_assembly answers 404 for an unknown project or subsystem, leaving the store unchanged. Otherwise it appends one assembly to the first subsystem with that id. The subsystem's other fields, its sibling subsystems and the other projects are unchanged |
| `Hierarchy.SumOverAppend` | backend/app.py:452-453 | appending an element adds its count to the sum |
| `Hierarchy.SumOverUpdate` | backend/app.py:442-452 | replacing one element changes a sum by exactly the difference of that element's counts |
| `Hierarchy.CreateProjectTotals` | backend/app.py:441-453 | after create_project, the summary shows one more project and the same subsystem, part and assembly totals; a rejected request leaves the summary unchanged |
| `Hierarchy.CreateSubsystemTotals` | backend/app.py:441-453 | after create_subsystem, the summary shows one more subsystem and the same other totals; a rejected request leaves the summary unchanged |
| `Hierarchy.CreatePartTotals` | backend/app.py:441-453 | after create_part, the summary shows one more part and the same other totals; a rejected request leaves the summary unchanged |
| `Hierarchy.CreateAssemblyTotals` | backend/app.py:441-453 | after create_assembly, the summary shows one more assembly and the same other totals; a rejected request leaves the summary unchanged |
| `Hierarchy.ConsistentUnderSameNumbering` | backend/app.py:569-592 | a store with the same projects, families, codes and subsystem numbers as a consistent store is consistent |
| `Hierarchy.CreateProjectKeepsConsistent` | backend/app.py:470-503 | from a consistent store and a fresh id, create_project leaves a consistent store: 172 codes stay unique and present, and at most one nfr project exists, with no code |
| `Hierarchy.AppendSubsystemKeepsConsistent` | backend/app.py:531-544 | appending to a project a subsystem whose number is in its family's range and unused in its scope keeps the store consistent |
| `Hierarchy.CreateSubsystemKeepsConsistent` | backend/app.py:530-544 | from a consistent store, create_subsystem leaves a consistent store: the new number is in range, and no two subsystems of one scope share a number |
| `Hierarchy.CreatePartKeepsConsistent` | backend/app.py:569-592 | from a consistent store, create_part leaves a consistent store |
| `Hierarchy.CreateAssemblyKeepsConsistent` | backend/app.py:611-632 | from a consistent store, create_assembly leaves a consistent store |
| `Hierarchy.SampleDataConsistent` | backend/app.py:287-355 | the sample projects obey every consistency rule: one 172 project with code 25A, one nfr project without a code, and subsystem numbers 1 and 0 in their ranges |
| `Hierarchy.SampleDataNextSubsystems` | backend/app.py:116-136 | on the sample data, the next subsystem of project 25A gets number 0 and the next nfr subsystem gets number 1 |
| `Hierarchy.SampleDataSummary` | backend/app.py:441-453 | the summary of the sample data counts 2 projects, 2 subsystems, 2 parts and 1 assembly |
| `HierarchyStore.FindSubsystem` | backend/app.py:569-574 | the loop with `break` finds the first subsystem whose id matches, or none |
| `HierarchyStore.Store.constructor` | backend/app.py:50 | the storage starts empty and consistent |
| `HierarchyStore.Store.LoadSampleData` | backend/app.py:287-355 | on the empty storage, init_memory_sample_data leaves exactly the two sample projects under the two given uuids (or only the second, should they collide), and the storage is consistent |
| `HierarchyStore.Store.GenerateSubsystemNumber` | backend/app.py:116-136 | the nested loops collect the scope's numbers, and the scan returns what `SubsystemNumber` specifies |
| `HierarchyStore.Store.CreateProject` | backend/app.py:466-513 | the handler, with its duplicate-check loops, replies and updates the storage as `CreateProjectStep` specifies, and keeps the storage consistent |
| `HierarchyStore.Store.CreateSubsystem` | backend/app.py:521-558 | the handler replies and appends in place as `CreateSubsystemStep` specifies, and keeps the storage consistent |
| `HierarchyStore.Store.CreatePart` | backend/app.py:560-594 | the handler replies and appends in place as `CreatePartStep` specifies, and keeps the storage consistent |
| `HierarchyStore.Store.CreateAssembly` | backend/app.py:602-634 | the handler replies and appends in place as `CreateAssemblyStep` specifies, and keeps the storage consistent |

## Left out

- The MongoDB side is not modelled, because it is thin wrappers over pymongo:
  - the CRUD and query helpers of `backend/database.py` and `get_database_manager`;
  - `init_database` and the database-to-response converters;
  - the MongoDB half of `get_database_summary`;
  - the call to `db_manager.generate_subsystem_number`, a method that `backend/database.py` does not define.
- `print_summary`, the FastAPI routing, CORS, `root` and `health_check` are not modelled. They are output or transport only.
- `HierarchyStore.Store.LoadSampleData`: requires the storage to be empty. The source calls `init_memory_sample_data` only at start-up, right after `projects_storage = {}`. The call through `init_sample_data` is not modelled.
- `Decimal.ParseNat`: accepts only runs of ASCII digits. Python's `int()` also accepts a sign, surrounding whitespace, underscores between digits and non-ASCII digits. A stored name whose suffix is, say, `" 12"` counts as 12 in the source but is ignored here.
- The database query `find({"name": {"$regex": f"^{prefix}"}})` builds its regular expression without escaping the project code. The model takes the query's result to be every stored name that starts with the prefix. That holds only when the code has no regular-expression metacharacters: for a code such as `2+A`, a stored name starting with `172-2+A-` does not match its own regex and is not seen.
- Python's `None` as `project_identifier` in the part generator is not modelled: the parameter is a string. An empty string takes the same error path.
- Random ids (`uuid.uuid4()`) are parameters. `Store.CreateProject` requires the new project id to be unused, since a colliding uuid would overwrite a dictionary entry.
- Projects are values inside the store's sequence, not shared dictionaries. Python appends to nested lists in place; the model reassigns the stored sequence. Nothing else holds a reference to those lists, so the observable behaviour is the same. The aliasing itself is not modelled.
- The handlers' generic `except Exception` answers 500. The model covers only the one case that can reach it on the in-memory path: an exhausted subsystem range.
- The request schemas are not validated: pydantic's type checks are not modelled. The pattern `^(172|nfr)$` on the project identifier is the datatype `Hierarchy.Identifier`.
- The model's replies leave out the response schemas. `ProjectResponse`, `SubsystemResponse`, `PartResponse` and `AssemblyResponse` declare `_id` with a leading underscore, which pydantic does not treat as a field. So the real replies of the create handlers and the summary carry no `_id`, while the model's reply is the stored record, id included. The stored records do keep their ids.
- Concurrency between requests is not modelled. The handlers run one at a time against one dictionary.
- The source has no delete operation. `Slots.LowestFreeRefillsHole` states the hole-filling behaviour on the used set alone.
