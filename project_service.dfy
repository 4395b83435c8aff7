/**
 * The project service: create, read, update and delete project documents in
 * the `projects` collection, and record uploaded files on a project. Reads
 * never trust the stored completion percentage; they recompute it.
 */
module ProjectService {
  import opened Wrappers
  import opened Types
  import opened Completion
  import opened DocumentStore

  /** A stored project document: a project without its id, which is the document key. */
  datatype ProjectDoc = ProjectDoc(
    name: string,
    owner: User,
    deadline: Instant,
    completionPercentage: nat,
    progressNotes: string,
    tasks: seq<Task>,
    activities: seq<Activity>,
    files: seq<FileRecord>)

  /** The `projects` collection: document id to document. */
  class ProjectCollection {
    var docs: map<string, ProjectDoc>

    constructor ()
      ensures docs == map[]
    {
      docs := map[];
    }
  }

  /** The fields the create and edit forms supply: name, description and deadline. */
  datatype ProjectValues = ProjectValues(name: string, description: string, deadline: Instant)

  /** `{ id: doc.id, ...data, completionPercentage: calculateCompletionPercentage(data.tasks) }`. */
  function ReadProject(id: string, doc: ProjectDoc): Project
  {
    Project(id, doc.name, doc.owner, doc.deadline, CompletionPercentage(doc.tasks),
            doc.progressNotes, doc.tasks, doc.activities, doc.files)
  }

  /** A read reports the percentage of the stored tasks, whatever percentage is stored. */
  lemma ReadIgnoresStoredPercentage(id: string, doc: ProjectDoc, stored: nat)
    ensures ReadProject(id, doc.(completionPercentage := stored)) == ReadProject(id, doc)
    ensures ReadProject(id, doc).completionPercentage == CompletionPercentage(doc.tasks) <= 100
  {
  }

  /** What `getProjectById(id)` returns: null when the document is absent or the read fails. */
  function LookupProject(docs: map<string, ProjectDoc>, id: string, storeFails: bool): (r: Option<Project>)
    ensures r.Some? <==> !storeFails && id in docs
    ensures r.Some? ==> r.value.id == id && r.value.tasks == docs[id].tasks
                        && r.value.completionPercentage == CompletionPercentage(docs[id].tasks)
    ensures r.Some? ==> && r.value.name == docs[id].name && r.value.owner == docs[id].owner
                        && r.value.deadline == docs[id].deadline
                        && r.value.progressNotes == docs[id].progressNotes
                        && r.value.activities == docs[id].activities && r.value.files == docs[id].files
  {
    if storeFails || id !in docs then None else Some(ReadProject(id, docs[id]))
  }

  method GetProjectById(db: ProjectCollection, id: string, storeFails: bool) returns (r: Option<Project>)
    ensures r == LookupProject(db.docs, id, storeFails)
  {
    if storeFails {
      return None;
    }
    if id in db.docs {
      r := Some(ReadProject(id, db.docs[id]));
    } else {
      r := None;
    }
  }

  /**
   * `getProjects()`: every stored project once, read as by `getProjectById`;
   * `[]` when the collection is empty or the read fails. The order is the
   * order the database returns documents in, which the model leaves open.
   */
  method GetProjects(db: ProjectCollection, storeFails: bool) returns (r: seq<Project>)
    ensures storeFails || db.docs == map[] ==> r == []
    ensures !storeFails ==> |r| == |db.docs|
    ensures forall i :: 0 <= i < |r| ==> r[i].id in db.docs && r[i] == ReadProject(r[i].id, db.docs[r[i].id])
    ensures !storeFails ==> forall id :: id in db.docs ==> exists i :: 0 <= i < |r| && r[i].id == id
    ensures forall i, j :: 0 <= i < j < |r| ==> r[i].id != r[j].id
  {
    r := [];
    if storeFails {
      return;
    }
    var remaining := db.docs.Keys;
    while remaining != {}
      invariant Scanned(db.docs, r, remaining)
      decreases |remaining|
    {
      var id :| id in remaining;
      ScanStep(db.docs, r, remaining, id);
      r := r + [ReadProject(id, db.docs[id])];
      remaining := remaining - {id};
    }
  }

  /** The ids of a list of projects. */
  function ProjectIds(projects: seq<Project>): set<string>
  {
    set i | 0 <= i < |projects| :: projects[i].id
  }

  lemma ProjectIdsSnoc(projects: seq<Project>, p: Project)
    ensures ProjectIds(projects + [p]) == ProjectIds(projects) + {p.id}
  {
    var extended := projects + [p];
    assert extended[|projects|].id == p.id;
    forall id | id in ProjectIds(projects)
      ensures id in ProjectIds(extended)
    {
      var i :| 0 <= i < |projects| && projects[i].id == id;
      assert extended[i].id == id;
    }
  }

  /**
   * The scan's invariant: `r` lists, once each and read as by
   * `getProjectById`, the stored documents whose ids are no longer in `remaining`.
   */
  ghost predicate Scanned(docs: map<string, ProjectDoc>, r: seq<Project>, remaining: set<string>)
  {
    && remaining <= docs.Keys
    && |r| + |remaining| == |docs|
    && (forall i :: 0 <= i < |r| ==>
          r[i].id in docs && r[i].id !in remaining && r[i] == ReadProject(r[i].id, docs[r[i].id]))
    && (forall id :: id in docs && id !in remaining ==> id in ProjectIds(r))
    && (forall i, j :: 0 <= i < j < |r| ==> r[i].id != r[j].id)
  }

  /** Reading one more remaining document keeps the invariant. */
  lemma ScanStep(docs: map<string, ProjectDoc>, r: seq<Project>, remaining: set<string>, id: string)
    requires Scanned(docs, r, remaining) && id in remaining
    ensures Scanned(docs, r + [ReadProject(id, docs[id])], remaining - {id})
  {
    var p := ReadProject(id, docs[id]);
    var extended := r + [p];
    var left := remaining - {id};
    ProjectIdsSnoc(r, p);
    assert |left| == |remaining| - 1;
    forall i | 0 <= i < |extended|
      ensures extended[i].id in docs && extended[i].id !in left
      ensures extended[i] == ReadProject(extended[i].id, docs[extended[i].id])
    {
      if i < |r| {
        assert extended[i] == r[i];
      }
    }
    forall i, j | 0 <= i < j < |extended|
      ensures extended[i].id != extended[j].id
    {
      assert extended[i] == r[i];
      if j < |r| {
        assert extended[j] == r[j];
      }
    }
  }

  /** The document `addProject` writes. */
  function NewProjectDoc(values: ProjectValues, tasks: seq<Task>, owner: User): (d: ProjectDoc)
    ensures d.tasks == tasks && d.activities == [] && d.files == []
    ensures d.progressNotes == values.description && d.owner == owner && d.completionPercentage == 0
    ensures d.name == values.name && d.deadline == values.deadline
  {
    ProjectDoc(values.name, owner, values.deadline, 0, values.description, tasks, [], [])
  }

  /**
   * `addProject`: stores a new document under the id the database generates
   * (`newId`, fresh) and returns that id.
   */
  method AddProject(db: ProjectCollection, values: ProjectValues, tasks: seq<Task>, owner: User,
                    newId: string, storeFails: bool) returns (r: Result<string>)
    requires newId !in db.docs
    modifies db
    ensures storeFails ==> r == Err("Failed to create project") && db.docs == old(db.docs)
    ensures !storeFails ==> r == Ok(newId) && db.docs == old(db.docs)[newId := NewProjectDoc(values, tasks, owner)]
  {
    if storeFails {
      return Err("Failed to create project");
    }
    db.docs := db.docs[newId := NewProjectDoc(values, tasks, owner)];
    r := Ok(newId);
  }

  /** The document after `updateProject`: name, progress notes and deadline replaced. */
  function WithMetadata(doc: ProjectDoc, values: ProjectValues): (d: ProjectDoc)
    ensures d.name == values.name && d.progressNotes == values.description && d.deadline == values.deadline
    ensures d.(name := doc.name, progressNotes := doc.progressNotes, deadline := doc.deadline) == doc
  {
    doc.(name := values.name, progressNotes := values.description, deadline := values.deadline)
  }

  /** `updateProject`: an update of a missing document fails like a failed write. */
  method UpdateProject(db: ProjectCollection, id: string, values: ProjectValues, storeFails: bool)
    returns (r: Outcome)
    modifies db
    ensures r == if storeFails || id !in old(db.docs) then Fail("Failed to update project") else Pass
    ensures r.Fail? ==> db.docs == old(db.docs)
    ensures r.Pass? ==> db.docs == old(db.docs)[id := WithMetadata(old(db.docs)[id], values)]
  {
    if storeFails || id !in db.docs {
      return Fail("Failed to update project");
    }
    db.docs := db.docs[id := WithMetadata(db.docs[id], values)];
    r := Pass;
  }

  /** `deleteProject`: removing an absent document succeeds and changes nothing. */
  method DeleteProject(db: ProjectCollection, id: string, storeFails: bool) returns (r: Outcome)
    modifies db
    ensures r == if storeFails then Fail("Failed to delete project") else Pass
    ensures r.Fail? ==> db.docs == old(db.docs)
    ensures r.Pass? ==> db.docs == old(db.docs) - {id}
  {
    if storeFails {
      return Fail("Failed to delete project");
    }
    db.docs := db.docs - {id};
    r := Pass;
  }

  /** After a successful delete, looking the project up yields null. */
  lemma DeletedProjectIsGone(docs: map<string, ProjectDoc>, id: string, storeFails: bool)
    ensures LookupProject(docs - {id}, id, storeFails) == None
    ensures forall other :: other != id ==> LookupProject(docs - {id}, other, storeFails) == LookupProject(docs, other, storeFails)
  {
  }

  /** The document after `addFileToProject`: the file record joins the list by `arrayUnion`. */
  function WithFile(doc: ProjectDoc, file: FileRecord): (d: ProjectDoc)
    ensures d.files == ArrayUnion(doc.files, file)
    ensures d.(files := doc.files) == doc
  {
    doc.(files := ArrayUnion(doc.files, file))
  }

  /** Adding the same file record twice is the same as adding it once. */
  lemma AddFileIdempotent(doc: ProjectDoc, file: FileRecord)
    ensures WithFile(WithFile(doc, file), file) == WithFile(doc, file)
  {
    ArrayUnionIdempotent(doc.files, file);
  }

  method AddFileToProject(db: ProjectCollection, id: string, file: FileRecord, storeFails: bool)
    returns (r: Outcome)
    modifies db
    ensures r == if storeFails || id !in old(db.docs) then Fail("Failed to add file") else Pass
    ensures r.Fail? ==> db.docs == old(db.docs)
    ensures r.Pass? ==> db.docs == old(db.docs)[id := WithFile(old(db.docs)[id], file)]
  {
    if storeFails || id !in db.docs {
      return Fail("Failed to add file");
    }
    db.docs := db.docs[id := WithFile(db.docs[id], file)];
    r := Pass;
  }
}
