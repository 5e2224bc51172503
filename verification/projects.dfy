/** The project store (`SqliteProjectStore`): projects, the links between
    projects and gems, and the queries over them. The three tables are
    sequences in insertion order; `ON DELETE CASCADE`, `INSERT OR IGNORE`,
    the foreign keys and the SQL orderings are written out, and the
    full-text index is a function from a query to its ranked gem ids. */
module Projects {
  import opened Wrappers
  import opened Text
  import opened Json
  import Gems
  import Ordering

  datatype Project = Project(
    id: string,
    title: string,
    description: Option<string>,
    objective: Option<string>,
    status: string,
    createdAt: string,
    updatedAt: string)

  datatype ProjectPreview = ProjectPreview(
    id: string, title: string, description: Option<string>, status: string, gemCount: nat, updatedAt: string)

  datatype ProjectDetail = ProjectDetail(project: Project, gemCount: nat, gems: seq<Gems.Preview>)

  datatype CreateProject = CreateProject(title: string, description: Option<string>, objective: Option<string>)

  /** Only the present fields are applied. */
  datatype UpdateProject = UpdateProject(
    title: Option<string>, description: Option<string>, objective: Option<string>, status: Option<string>)

  /** A row of `project_gems`. */
  datatype Link = Link(projectId: string, gemId: string, addedAt: string)

  /** The `projects` and `project_gems` tables and the `gems` table they
      share the database with. */
  datatype Db = Db(projects: seq<Project>, links: seq<Link>, gems: seq<Gems.Row>)

  const ACTIVE: string := "active"
  const NOT_FOUND: string := "Project not found"
  const FOREIGN_KEY_FAILED: string := "Failed to add gem to project: FOREIGN KEY constraint failed"
  const DEFAULT_LIMIT: nat := 100

  // ---------------------------------------------------------------------
  // Lookups and the table constraints
  // ---------------------------------------------------------------------

  function IndexOfProject(ps: seq<Project>, id: string): (r: Option<nat>)
    ensures r.Some? ==> r.value < |ps| && ps[r.value].id == id
    ensures r.None? <==> forall i :: 0 <= i < |ps| ==> ps[i].id != id
  {
    if |ps| == 0 then None
    else if ps[|ps| - 1].id == id then Some(|ps| - 1)
    else IndexOfProject(ps[..|ps| - 1], id)
  }

  function IndexOfGem(rows: seq<Gems.Row>, id: string): (r: Option<nat>)
    ensures r.Some? ==> r.value < |rows| && rows[r.value].gem.id == id
    ensures r.None? <==> forall i :: 0 <= i < |rows| ==> rows[i].gem.id != id
  {
    if |rows| == 0 then None
    else if rows[|rows| - 1].gem.id == id then Some(|rows| - 1)
    else IndexOfGem(rows[..|rows| - 1], id)
  }

  predicate IsPair(l: Link, pid: string, gid: string) {
    l.projectId == pid && l.gemId == gid
  }

  function IndexOfLink(links: seq<Link>, pid: string, gid: string): (r: Option<nat>)
    ensures r.Some? ==> r.value < |links| && IsPair(links[r.value], pid, gid)
    ensures r.None? <==> forall i :: 0 <= i < |links| ==> !IsPair(links[i], pid, gid)
  {
    if |links| == 0 then None
    else if IsPair(links[|links| - 1], pid, gid) then Some(|links| - 1)
    else IndexOfLink(links[..|links| - 1], pid, gid)
  }

  /** The primary keys of both tables and the link table's foreign keys. */
  predicate WellFormed(db: Db) {
    && (forall i, j :: 0 <= i < j < |db.projects| ==> db.projects[i].id != db.projects[j].id)
    && (forall i, j :: 0 <= i < j < |db.links| ==>
          !IsPair(db.links[j], db.links[i].projectId, db.links[i].gemId))
    && (forall k :: 0 <= k < |db.links| ==>
          IndexOfProject(db.projects, db.links[k].projectId).Some? && IndexOfGem(db.gems, db.links[k].gemId).Some?)
  }

  predicate InProject(l: Link, pid: string) {
    l.projectId == pid
  }

  /** `COUNT(pg.gem_id)` for one project. */
  function GemCount(links: seq<Link>, pid: string): (r: nat)
    ensures r <= |links|
  {
    |Filter(links, l => InProject(l, pid))|
  }

  // ---------------------------------------------------------------------
  // Create, list, get
  // ---------------------------------------------------------------------

  /** `create`: a new active project whose two timestamps are the same;
      `id` is the fresh UUID and `now` the current time. */
  function Create(db: Db, input: CreateProject, id: string, now: string): (r: (Result<Project>, Db))
    ensures r.0.Ok? <==> IndexOfProject(db.projects, id).None?
    ensures r.0.Err? ==> r.1 == db
    ensures r.0.Ok? ==> var p := r.0.value;
      && p.id == id && p.status == ACTIVE && p.createdAt == now && p.updatedAt == now
      && p.title == input.title && p.description == input.description && p.objective == input.objective
      && r.1 == db.(projects := db.projects + [p])
  {
    if IndexOfProject(db.projects, id).Some? then
      (Err(("Failed to create project: UNIQUE " + "constraint failed: projects.id")), db)
    else
      var p := Project(id, input.title, input.description, input.objective, ACTIVE, now, now);
      (Ok(p), db.(projects := db.projects + [p]))
  }

  lemma {:induction false} CreateKeepsWellFormed(db: Db, input: CreateProject, id: string, now: string)
    requires WellFormed(db)
    ensures WellFormed(Create(db, input, id, now).1)
  {
    var db' := Create(db, input, id, now).1;
    if db' != db {
      forall k | 0 <= k < |db.links| ensures IndexOfProject(db'.projects, db.links[k].projectId).Some? {
        var i := IndexOfProject(db.projects, db.links[k].projectId).value;
        assert db'.projects[i] == db.projects[i];
      }
    }
  }

  function ToPreview(p: Project, count: nat): (r: ProjectPreview)
    ensures r.id == p.id && r.updatedAt == p.updatedAt && r.gemCount == count
  {
    ProjectPreview(p.id, p.title, p.description, p.status, count, p.updatedAt)
  }

  function UpdatedAt(p: Project): string {
    p.updatedAt
  }

  /** Each project with its gem count, in the given order. */
  function Listing(ps: seq<Project>, links: seq<Link>): (r: seq<ProjectPreview>)
    ensures |r| == |ps|
    ensures forall k :: 0 <= k < |ps| ==> r[k] == ToPreview(ps[k], GemCount(links, ps[k].id))
  {
    seq(|ps|, k requires 0 <= k < |ps| => ToPreview(ps[k], GemCount(links, ps[k].id)))
  }

  /** `list`: every project, most recently updated first, with the number
      of gems linked to it. */
  function List(db: Db): (r: seq<ProjectPreview>)
    ensures |r| == |db.projects|
    ensures forall i, j :: 0 <= i < j < |r| ==> LexLeq(r[j].updatedAt, r[i].updatedAt)
    ensures forall k :: 0 <= k < |r| ==> r[k].gemCount == GemCount(db.links, r[k].id)
  {
    var s := Ordering.SortDesc(db.projects, UpdatedAt);
    Ordering.SortedFrom(db.projects, UpdatedAt);
    Listing(s, db.links)
  }

  /** The listing shows exactly the stored projects. */
  lemma {:induction false} ListShowsEveryProject(db: Db)
    ensures forall p :: p in db.projects ==> ToPreview(p, GemCount(db.links, p.id)) in List(db)
    ensures forall k :: 0 <= k < |List(db)| ==> exists p :: p in db.projects && List(db)[k] == ToPreview(p, GemCount(db.links, p.id))
  {
    var s := Ordering.SortDesc(db.projects, UpdatedAt);
    Ordering.SortedFrom(db.projects, UpdatedAt);
    var r := List(db);
    assert r == Listing(s, db.links);
    forall p | p in db.projects ensures ToPreview(p, GemCount(db.links, p.id)) in r {
      var k :| 0 <= k < |s| && s[k] == p;
      assert r[k] == ToPreview(p, GemCount(db.links, p.id));
    }
    forall k | 0 <= k < |r| ensures exists p :: p in db.projects && r[k] == ToPreview(p, GemCount(db.links, p.id)) {
      assert s[k] in db.projects;
    }
  }

  /** `SUBSTR(content, 1, 200)`: the first 200 characters, with no mark of
      the cut. */
  function Substr200(c: string): (r: string)
    ensures |r| <= Gems.PREVIEW_CHARS && StartsWith(c, r)
    ensures |c| <= Gems.PREVIEW_CHARS <==> r == c
  {
    if |c| <= Gems.PREVIEW_CHARS then c else c[..Gems.PREVIEW_CHARS]
  }

  /** `parse_ai_enrichment`: absent or unparseable text gives nothing; the
      tags are the string elements of a `tags` array. */
  function ParseAiEnrichment(text: Option<string>, parse: Parser): (r: (Option<seq<string>>, Option<string>, Option<string>))
    ensures text.None? || parse(text.value).Err? ==> r == (None, None, None)
    ensures text.Some? && parse(text.value).Ok? ==> var v := parse(text.value).value;
      && (r.0.Some? <==> Get(v, "tags").Some? && Get(v, "tags").value.Arr?)
      && (r.0.Some? ==> r.0.value == StringElements(Get(v, "tags").value.items))
      && r.1 == GetStr(v, "summary")
      && r.2 == Gems.EnrichmentSource(v)
  {
    match text
    case None => (None, None, None)
    case Some(s) =>
      match parse(s)
      case Err(_) => (None, None, None)
      case Ok(v) =>
        var tags := match Get(v, "tags") case Some(Arr(items)) => Some(StringElements(items)) case _ => None;
        (tags, GetStr(v, "summary"), Gems.EnrichmentSource(v))
  }

  /** Where the gem store's preview has tags (an all-string array), the
      project store's preview has the same ones; it also keeps the strings
      of a mixed array, which the gem store drops. */
  lemma {:induction false} TagsAgreeWithGemPreview(row: Gems.Row, parse: Parser)
    requires row.aiEnrichmentText.Some? && parse(row.aiEnrichmentText.value).Ok?
    ensures var g := Gems.RowToGem(row, parse); var tags := Gems.GemToPreview(g).tags;
      tags.Some? ==> ParseAiEnrichment(row.aiEnrichmentText, parse).0 == tags
    ensures var g := Gems.RowToGem(row, parse);
      ParseAiEnrichment(row.aiEnrichmentText, parse).2 == Gems.GemToPreview(g).enrichmentSource
  {
    var v := parse(row.aiEnrichmentText.value).value;
    var g := Gems.RowToGem(row, parse);
    if Gems.GemToPreview(g).tags.Some? {
      StringElementsOfStrings(Get(v, "tags").value.items);
    }
  }

  /** A linked gem as the project queries show it. */
  function GemPreview(row: Gems.Row, parse: Parser): (p: Gems.Preview)
    ensures var g := row.gem;
      && p.id == g.id && p.sourceUrl == g.sourceUrl && p.title == g.title && p.capturedAt == g.capturedAt
      && p.sourceType == g.sourceType && p.domain == g.domain && p.author == g.author
      && p.description == g.description && p.transcriptLanguage == g.transcriptLanguage
    ensures p.contentPreview.Some? <==> row.gem.content.Some?
    ensures row.gem.content.Some? ==> p.contentPreview.value == Substr200(row.gem.content.value)
    ensures (p.tags, p.summary, p.enrichmentSource) == ParseAiEnrichment(row.aiEnrichmentText, parse)
  {
    var g := row.gem;
    var (tags, summary, source) := ParseAiEnrichment(row.aiEnrichmentText, parse);
    var preview := match g.content case Some(c) => Some(Substr200(c)) case None => None;
    Gems.Preview(g.id, g.sourceType, g.sourceUrl, g.domain, g.title, g.author, g.description,
      preview, g.capturedAt, tags, summary, source, g.transcriptLanguage)
  }

  function AddedAt(l: Link): string {
    l.addedAt
  }

  function RowOf(rows: seq<Gems.Row>, id: string): (r: Option<Gems.Row>)
    ensures r.Some? <==> IndexOfGem(rows, id).Some?
    ensures r.Some? ==> r.value in rows && r.value.gem.id == id
  {
    match IndexOfGem(rows, id)
    case Some(i) => Some(rows[i])
    case None => None
  }

  /** A project's links, most recently added first. */
  function ProjectLinks(links: seq<Link>, pid: string): (r: seq<Link>)
    ensures |r| == GemCount(links, pid)
    ensures forall k :: 0 <= k < |r| ==> r[k] in links && r[k].projectId == pid
    ensures Ordering.Descending(r, AddedAt)
  {
    var mine := Filter(links, l => InProject(l, pid));
    Ordering.SortedFrom(mine, AddedAt);
    Ordering.SortDesc(mine, AddedAt)
  }

  /** The join of links to gem rows; a link whose gem is missing joins
      nothing. */
  function RowsOf(links: seq<Link>, gems: seq<Gems.Row>): (r: seq<Gems.Row>)
    ensures |r| <= |links|
    ensures forall k :: 0 <= k < |r| ==> r[k] in gems
  {
    if |links| == 0 then []
    else
      match RowOf(gems, links[0].gemId)
      case Some(row) => [row] + RowsOf(links[1..], gems)
      case None => RowsOf(links[1..], gems)
  }

  /** When every link's gem exists the join keeps the links' order, one
      row per link. */
  lemma {:induction false} RowsOfAllPresent(links: seq<Link>, gems: seq<Gems.Row>)
    requires forall k :: 0 <= k < |links| ==> IndexOfGem(gems, links[k].gemId).Some?
    ensures |RowsOf(links, gems)| == |links|
    ensures forall k :: 0 <= k < |links| ==> RowsOf(links, gems)[k].gem.id == links[k].gemId
  {
    if |links| > 0 {
      RowsOfAllPresent(links[1..], gems);
    }
  }

  /** The rows joined to a project, most recently added first. */
  function LinkedRows(db: Db, pid: string): (r: seq<Gems.Row>)
    ensures |r| <= GemCount(db.links, pid)
    ensures forall k :: 0 <= k < |r| ==> r[k] in db.gems
  {
    RowsOf(ProjectLinks(db.links, pid), db.gems)
  }

  function Previews(rows: seq<Gems.Row>, parse: Parser): (r: seq<Gems.Preview>)
    ensures |r| == |rows| && forall k :: 0 <= k < |rows| ==> r[k] == GemPreview(rows[k], parse)
  {
    seq(|rows|, k requires 0 <= k < |rows| => GemPreview(rows[k], parse))
  }

  /** `get`: the project with its gems; the count is the number of gems
      returned. */
  function GetProject(db: Db, id: string, parse: Parser): (r: Result<ProjectDetail>)
    ensures r.Err? <==> IndexOfProject(db.projects, id).None?
    ensures r.Err? ==> r.error == NOT_FOUND
    ensures r.Ok? ==> r.value.project == db.projects[IndexOfProject(db.projects, id).value]
    ensures r.Ok? ==> r.value.gemCount == |r.value.gems| && r.value.gems == Previews(LinkedRows(db, id), parse)
  {
    match IndexOfProject(db.projects, id)
    case None => Err(NOT_FOUND)
    case Some(i) =>
      var gems := Previews(LinkedRows(db, id), parse);
      Ok(ProjectDetail(db.projects[i], |gems|, gems))
  }

  /** With the foreign keys in place, `get` counts the same gems as `list`,
      and shows them in the order the links were added, latest first. */
  lemma {:induction false} DetailCountMatchesList(db: Db, id: string, parse: Parser)
    requires WellFormed(db) && GetProject(db, id, parse).Ok?
    ensures GetProject(db, id, parse).value.gemCount == GemCount(db.links, id)
    ensures var links := ProjectLinks(db.links, id);
      forall k :: 0 <= k < |links| ==> GetProject(db, id, parse).value.gems[k].id == links[k].gemId
  {
    var links := ProjectLinks(db.links, id);
    forall k | 0 <= k < |links| ensures IndexOfGem(db.gems, links[k].gemId).Some? {
      assert links[k] in db.links;
    }
    RowsOfAllPresent(links, db.gems);
  }

  /** A project no link names has no links. */
  lemma {:induction false} NoLinksToMissing(links: seq<Link>, projects: seq<Project>, id: string)
    requires forall k :: 0 <= k < |links| ==> IndexOfProject(projects, links[k].projectId).Some?
    requires IndexOfProject(projects, id).None?
    ensures Filter(links, l => InProject(l, id)) == []
  {
    if |links| > 0 {
      assert links[0].projectId != id;
      NoLinksToMissing(links[1..], projects, id);
    }
  }

  /** A new project is found with no gems. */
  lemma {:induction false} CreateThenGet(db: Db, input: CreateProject, id: string, now: string, parse: Parser)
    requires WellFormed(db) && Create(db, input, id, now).0.Ok?
    ensures var (p, db') := Create(db, input, id, now);
      GetProject(db', id, parse) == Ok(ProjectDetail(p.value, 0, []))
  {
    var (p, db') := Create(db, input, id, now);
    assert db'.projects[|db.projects|] == p.value;
    assert IndexOfProject(db'.projects, id) == Some(|db.projects|);
    NoLinksToMissing(db.links, db.projects, id);
  }

  // ---------------------------------------------------------------------
  // Update
  // ---------------------------------------------------------------------

  /** The fields an update sets: the present ones, and the timestamp. */
  function Apply(p: Project, u: UpdateProject, now: string): (r: Project)
    ensures r.id == p.id && r.createdAt == p.createdAt && r.updatedAt == now
    ensures r.title == u.title.GetOr(p.title) && r.status == u.status.GetOr(p.status)
    ensures r.description == u.description.Or(p.description) && r.objective == u.objective.Or(p.objective)
  {
    p.(title := u.title.GetOr(p.title), description := u.description.Or(p.description),
       objective := u.objective.Or(p.objective), status := u.status.GetOr(p.status), updatedAt := now)
  }

  /** `update`: no matching row is "Project not found"; otherwise the row
      gets the update, and is returned. */
  function Update(db: Db, id: string, u: UpdateProject, now: string): (r: (Result<Project>, Db))
    ensures r.0.Err? <==> IndexOfProject(db.projects, id).None?
    ensures r.0.Err? ==> r == (Err(NOT_FOUND), db)
    ensures r.0.Ok? ==> var i := IndexOfProject(db.projects, id).value;
      r.0.value == Apply(db.projects[i], u, now) && r.1 == db.(projects := db.projects[i := r.0.value])
  {
    match IndexOfProject(db.projects, id)
    case None => (Err(NOT_FOUND), db)
    case Some(i) =>
      var p := Apply(db.projects[i], u, now);
      (Ok(p), db.(projects := db.projects[i := p]))
  }

  /** The `UPDATE` statement as built: `column = ?n` assignments, the bound
      values in placeholder order, and the id's placeholder. */
  datatype Statement = Statement(assignments: seq<(string, nat)>, params: seq<string>, idPlaceholder: nat)

  /** The statement under construction: the assignments so far, their
      values, and the next placeholder number. */
  datatype Builder = Builder(assignments: seq<(string, nat)>, params: seq<string>, next: nat)

  /** Placeholders numbered 1, 2, ... in order, one per bound value, and
      the next number one past the last. */
  predicate Numbered(b: Builder) {
    && |b.assignments| == |b.params| && b.next == |b.params| + 1
    && forall k :: 0 <= k < |b.assignments| ==> b.assignments[k].1 == k + 1
  }

  /** `updated_at = ?1`, bound to the current time. */
  function Start(now: string): (b: Builder)
    ensures Numbered(b)
  {
    Builder([("updated_at", 1)], [now], 2)
  }

  /** One `if let Some(..)` arm: a present field takes the next placeholder. */
  function Push(b: Builder, column: string, value: Option<string>): (r: Builder)
    ensures Numbered(b) ==> Numbered(r)
    ensures value.None? ==> r == b
  {
    match value
    case None => b
    case Some(v) => Builder(b.assignments + [(column, b.next)], b.params + [v], b.next + 1)
  }

  function UpdateStatement(u: UpdateProject, now: string, id: string): (st: Statement)
    ensures |st.assignments| + 1 == |st.params| == st.idPlaceholder
    ensures forall k :: 0 <= k < |st.assignments| ==> st.assignments[k].1 == k + 1
    ensures st.params[0] == now && st.params[|st.params| - 1] == id
  {
    var b := Push(Push(Push(Push(Start(now), "title", u.title), "description", u.description),
                       "objective", u.objective), "status", u.status);
    Statement(b.assignments, b.params + [id], b.next)
  }

  /** The statement's text. */
  function Sql(st: Statement): string {
    "UPDATE projects SET "
    + Join(seq(|st.assignments|, k requires 0 <= k < |st.assignments| =>
             st.assignments[k].0 + " = ?" + NatToString(st.assignments[k].1)), ", ")
    + " WHERE id = ?" + NatToString(st.idPlaceholder)
  }

  /** What one assignment does to the row. */
  function Assign(p: Project, column: string, v: string): Project {
    match column
    case "updated_at" => p.(updatedAt := v)
    case "title" => p.(title := v)
    case "description" => p.(description := Some(v))
    case "objective" => p.(objective := Some(v))
    case "status" => p.(status := v)
    case _ => p
  }

  function SetOpt(p: Project, column: string, value: Option<string>): Project {
    match value
    case None => p
    case Some(v) => Assign(p, column, v)
  }

  /** Executing assignments against a row, each reading its placeholder's
      bound value. */
  function Execute(p: Project, assignments: seq<(string, nat)>, params: seq<string>): Project
    requires forall k :: 0 <= k < |assignments| ==> 1 <= assignments[k].1 <= |params|
    decreases |assignments|
  {
    if |assignments| == 0 then p
    else Execute(Assign(p, assignments[0].0, params[assignments[0].1 - 1]), assignments[1..], params)
  }

  lemma {:induction false} ExecuteAppend(p: Project, a: seq<(string, nat)>, b: seq<(string, nat)>, params: seq<string>)
    requires forall k :: 0 <= k < |a| ==> 1 <= a[k].1 <= |params|
    requires forall k :: 0 <= k < |b| ==> 1 <= b[k].1 <= |params|
    ensures Execute(p, a + b, params) == Execute(Execute(p, a, params), b, params)
    decreases |a|
  {
    if |a| > 0 {
      assert (a + b)[1..] == a[1..] + b;
      ExecuteAppend(Assign(p, a[0].0, params[a[0].1 - 1]), a[1..], b, params);
    } else {
      assert a + b == b;
    }
  }

  /** Values bound past the last placeholder used are never read. */
  lemma {:induction false} ExecuteExtend(p: Project, a: seq<(string, nat)>, params: seq<string>, more: seq<string>)
    requires forall k :: 0 <= k < |a| ==> 1 <= a[k].1 <= |params|
    ensures Execute(p, a, params + more) == Execute(p, a, params)
    decreases |a|
  {
    if |a| > 0 {
      assert (params + more)[a[0].1 - 1] == params[a[0].1 - 1];
      ExecuteExtend(Assign(p, a[0].0, params[a[0].1 - 1]), a[1..], params, more);
    }
  }

  /** One arm of the builder, run, sets its field when it is present. */
  lemma {:induction false} PushExecutes(p: Project, b: Builder, column: string, value: Option<string>)
    requires Numbered(b)
    ensures var r := Push(b, column, value);
      Execute(p, r.assignments, r.params) == SetOpt(Execute(p, b.assignments, b.params), column, value)
  {
    if value.Some? {
      var v := value.value;
      var r := Push(b, column, value);
      ExecuteAppend(p, b.assignments, [(column, b.next)], b.params + [v]);
      ExecuteExtend(p, b.assignments, b.params, [v]);
      assert (b.params + [v])[b.next - 1] == v;
    }
  }

  /** The placeholders line up with the bound values: running the built
      statement on the row applies exactly the update, and the id is bound
      to the last placeholder. */
  lemma {:induction false} StatementApplies(p: Project, u: UpdateProject, now: string, id: string)
    ensures var st := UpdateStatement(u, now, id);
      && (forall k :: 0 <= k < |st.assignments| ==> 1 <= st.assignments[k].1 <= |st.params|)
      && Execute(p, st.assignments, st.params) == Apply(p, u, now)
      && st.params[st.idPlaceholder - 1] == id
  {
    var b0 := Start(now);
    var b1 := Push(b0, "title", u.title);
    var b2 := Push(b1, "description", u.description);
    var b3 := Push(b2, "objective", u.objective);
    var b4 := Push(b3, "status", u.status);
    var q0 := Assign(p, "updated_at", now);
    assert Execute(p, b0.assignments, b0.params) == q0;
    PushExecutes(p, b0, "title", u.title);
    PushExecutes(p, b1, "description", u.description);
    PushExecutes(p, b2, "objective", u.objective);
    PushExecutes(p, b3, "status", u.status);
    ExecuteExtend(p, b4.assignments, b4.params, [id]);
    var q4 := SetOpt(SetOpt(SetOpt(SetOpt(q0, "title", u.title), "description", u.description),
                            "objective", u.objective), "status", u.status);
    assert Execute(p, b4.assignments, b4.params) == q4;
    assert q4 == Apply(p, u, now);
  }

  // ---------------------------------------------------------------------
  // Delete, add, remove
  // ---------------------------------------------------------------------

  predicate NotProject(p: Project, id: string) {
    p.id != id
  }

  predicate NotInProject(l: Link, id: string) {
    l.projectId != id
  }

  /** `delete`: the project and, by the cascade, its links go; its gems
      stay. Deleting a missing project succeeds. */
  function Delete(db: Db, id: string): (r: (Result<()>, Db))
    ensures r.0.Ok?
    ensures IndexOfProject(r.1.projects, id).None?
    ensures forall l :: l in r.1.links ==> l in db.links && l.projectId != id
    ensures forall l :: l in db.links && l.projectId != id ==> l in r.1.links
    ensures forall p :: p in db.projects && p.id != id ==> p in r.1.projects
    ensures r.1.gems == db.gems
  {
    FilterKeeps(db.projects, p => NotProject(p, id));
    FilterKeeps(db.links, l => NotInProject(l, id));
    var ps := Filter(db.projects, p => NotProject(p, id));
    assert forall i :: 0 <= i < |ps| ==> ps[i] in ps;
    (Ok(()), Db(ps, Filter(db.links, l => NotInProject(l, id)), db.gems))
  }

  /** Sets a project's `updated_at`; no matching row changes nothing. */
  function Touch(db: Db, pid: string, now: string): (r: Db)
    ensures r.links == db.links && r.gems == db.gems && |r.projects| == |db.projects|
    ensures forall i :: 0 <= i < |db.projects| ==> r.projects[i].id == db.projects[i].id
  {
    match IndexOfProject(db.projects, pid)
    case None => db
    case Some(i) => db.(projects := db.projects[i := db.projects[i].(updatedAt := now)])
  }

  /** The inserts of `add_gems`, one gem at a time: a pair already linked is
      ignored; a missing project or gem fails the foreign key and stops,
      keeping the links inserted so far. */
  function AddEach(db: Db, pid: string, gids: seq<string>, now: string): (r: (Result<nat>, Db))
    ensures r.1.projects == db.projects && r.1.gems == db.gems
    ensures |r.1.links| >= |db.links| && r.1.links[..|db.links|] == db.links
    ensures forall k :: |db.links| <= k < |r.1.links| ==> r.1.links[k].projectId == pid && r.1.links[k].addedAt == now
    ensures r.0.Ok? ==> |r.1.links| == |db.links| + r.0.value
    ensures r.0.Err? ==> r.0.error == FOREIGN_KEY_FAILED
    decreases |gids|
  {
    if |gids| == 0 then (Ok(0), db)
    else if IndexOfLink(db.links, pid, gids[0]).Some? then
      var (res, db') := AddEach(db, pid, gids[1..], now);
      assert db'.links[..|db.links|] == db.links;
      (res, db')
    else if IndexOfProject(db.projects, pid).None? || IndexOfGem(db.gems, gids[0]).None? then
      (Err(FOREIGN_KEY_FAILED), db)
    else
      var grown := db.(links := db.links + [Link(pid, gids[0], now)]);
      var (res, db') := AddEach(grown, pid, gids[1..], now);
      assert db'.links[..|grown.links|] == grown.links;
      assert db'.links[..|db.links|] == db.links;
      assert db'.links[|db.links|] == grown.links[|db.links|] == Link(pid, gids[0], now);
      (if res.Ok? then Ok(res.value + 1) else res, db')
  }

  /** When the inserts succeed, every gem asked for is linked afterwards. */
  lemma {:induction false} AddEachLinksAll(db: Db, pid: string, gids: seq<string>, now: string)
    ensures var r := AddEach(db, pid, gids, now);
      r.0.Ok? ==> forall g :: g in gids ==> IndexOfLink(r.1.links, pid, g).Some?
    decreases |gids|
  {
    if |gids| > 0 {
      var r := AddEach(db, pid, gids, now);
      assert forall g :: g in gids ==> g == gids[0] || g in gids[1..];
      if IndexOfLink(db.links, pid, gids[0]).Some? {
        AddEachLinksAll(db, pid, gids[1..], now);
        LinkKept(db.links, r.1.links, pid, gids[0]);
      } else if IndexOfProject(db.projects, pid).Some? && IndexOfGem(db.gems, gids[0]).Some? {
        var grown := db.(links := db.links + [Link(pid, gids[0], now)]);
        AddEachLinksAll(grown, pid, gids[1..], now);
        assert r.1.links[..|grown.links|] == grown.links;
        assert IsPair(grown.links[|db.links|], pid, gids[0]);
        LinkKept(grown.links, r.1.links, pid, gids[0]);
      }
    }
  }

  /** A link present before more are appended is still found. */
  lemma {:induction false} LinkKept(links: seq<Link>, more: seq<Link>, pid: string, gid: string)
    requires IndexOfLink(links, pid, gid).Some?
    requires |more| >= |links| && more[..|links|] == links
    ensures IndexOfLink(more, pid, gid).Some?
  {
    var i := IndexOfLink(links, pid, gid).value;
    assert more[i] == links[i];
  }

  /** `add_gems`: the inserts, then the project's timestamp; the result is
      the number of links inserted. */
  function AddGems(db: Db, pid: string, gids: seq<string>, now: string): (r: (Result<nat>, Db))
    ensures r.0.Ok? ==> |r.1.links| == |db.links| + r.0.value && r.1.links[..|db.links|] == db.links
    ensures r.0.Ok? ==> forall g :: g in gids ==> IndexOfLink(r.1.links, pid, g).Some?
    ensures r.0.Ok? ==> r.1 == Touch(AddEach(db, pid, gids, now).1, pid, now)
    ensures r.0.Err? ==> r.0.error == FOREIGN_KEY_FAILED
  {
    AddEachLinksAll(db, pid, gids, now);
    var (res, db') := AddEach(db, pid, gids, now);
    if res.Err? then (res, db') else (res, Touch(db', pid, now))
  }

  /** Adding gems that are all linked already inserts nothing. */
  lemma {:induction false} AddEachLinkedNoop(db: Db, pid: string, gids: seq<string>, now: string)
    requires forall g :: g in gids ==> IndexOfLink(db.links, pid, g).Some?
    ensures AddEach(db, pid, gids, now) == (Ok(0), db)
    decreases |gids|
  {
    if |gids| > 0 {
      assert gids[0] in gids;
      AddEachLinkedNoop(db, pid, gids[1..], now);
    }
  }

  /** Re-adding the same gems is a no-op apart from the timestamp: the
      second call counts zero and leaves the links as they are. */
  lemma {:induction false} AddGemsIdempotent(db: Db, pid: string, gids: seq<string>, now: string, later: string)
    requires AddGems(db, pid, gids, now).0.Ok?
    ensures var db1 := AddGems(db, pid, gids, now).1;
      AddGems(db1, pid, gids, later).0 == Ok(0) && AddGems(db1, pid, gids, later).1.links == db1.links
  {
    var db1 := AddGems(db, pid, gids, now).1;
    AddEachLinkedNoop(db1, pid, gids, later);
  }

  predicate NotPair(l: Link, pid: string, gid: string) {
    !IsPair(l, pid, gid)
  }

  /** `remove_gem`: the link goes (if there was one) and the project's
      timestamp moves; the gem itself stays. */
  function RemoveGem(db: Db, pid: string, gid: string, now: string): (r: (Result<()>, Db))
    ensures r.0.Ok? && r.1.gems == db.gems
    ensures IndexOfLink(r.1.links, pid, gid).None?
    ensures forall l :: l in db.links && !IsPair(l, pid, gid) ==> l in r.1.links
    ensures forall l :: l in r.1.links ==> l in db.links
  {
    var links := Filter(db.links, l => NotPair(l, pid, gid));
    FilterKeeps(db.links, l => NotPair(l, pid, gid));
    assert forall i :: 0 <= i < |links| ==> links[i] in links;
    (Ok(()), Touch(db.(links := links), pid, now))
  }

  // ---------------------------------------------------------------------
  // Project gems and gem projects
  // ---------------------------------------------------------------------

  function Take<T>(s: seq<T>, n: nat): (r: seq<T>)
    ensures |r| == if n <= |s| then n else |s|
    ensures r == s[..|r|]
  {
    if n <= |s| then s[..n] else s
  }

  /** The full-text hits that are linked to the project, in rank order. */
  function Hits(db: Db, pid: string, ranked: seq<string>): (r: seq<Gems.Row>)
    ensures |r| <= |ranked|
    ensures forall k :: 0 <= k < |r| ==> r[k] in db.gems && IndexOfLink(db.links, pid, r[k].gem.id).Some?
  {
    if |ranked| == 0 then []
    else
      var rest := Hits(db, pid, ranked[1..]);
      match RowOf(db.gems, ranked[0])
      case Some(row) => if IndexOfLink(db.links, pid, ranked[0]).Some? then [row] + rest else rest
      case None => rest
  }

  /** `get_project_gems`: no query, or a blank one, lists the project's
      gems most recently added first; any other query ranks them by the
      full-text index. The limit defaults to 100. */
  function GetProjectGems(db: Db, pid: string, query: Option<string>, limit: Option<nat>,
                          fts: string -> Result<seq<string>>, parse: Parser): (r: Result<seq<Gems.Preview>>)
    ensures query.None? || IsBlank(query.value) ==>
      r == Ok(Previews(Take(LinkedRows(db, pid), limit.GetOr(DEFAULT_LIMIT)), parse))
    ensures r.Ok? ==> |r.value| <= limit.GetOr(DEFAULT_LIMIT)
    ensures r.Ok? && query.Some? && !IsBlank(query.value) ==>
      forall k :: 0 <= k < |r.value| ==> IndexOfLink(db.links, pid, r.value[k].id).Some?
  {
    var n := limit.GetOr(DEFAULT_LIMIT);
    if query.None? || IsBlank(query.value) then Ok(Previews(Take(LinkedRows(db, pid), n), parse))
    else
      match fts(query.value)
      case Err(e) => Err("Failed to collect gems: " + e)
      case Ok(ranked) =>
        var rows := Take(Hits(db, pid, ranked), n);
        assert forall k :: 0 <= k < |rows| ==> rows[k] == Hits(db, pid, ranked)[k];
        Ok(Previews(rows, parse))
  }

  /** No query and a blank query are the same request. */
  lemma {:induction false} BlankQueryIsNoQuery(db: Db, pid: string, q: string, limit: Option<nat>,
                            fts: string -> Result<seq<string>>, parse: Parser)
    requires IsBlank(q)
    ensures GetProjectGems(db, pid, Some(q), limit, fts, parse) == GetProjectGems(db, pid, None, limit, fts, parse)
  {
  }

  predicate LinksGem(db: Db, p: Project, gid: string) {
    IndexOfLink(db.links, p.id, gid).Some?
  }

  /** The projects linked to a gem, in table order. */
  function ProjectsOf(projects: seq<Project>, db: Db, gid: string): (r: seq<Project>)
    ensures |r| <= |projects|
    ensures forall k :: 0 <= k < |r| ==> r[k] in projects && LinksGem(db, r[k], gid)
    ensures forall p :: p in projects && LinksGem(db, p, gid) ==> p in r
  {
    if |projects| == 0 then []
    else
      var rest := ProjectsOf(projects[1..], db, gid);
      assert forall p :: p in projects ==> p == projects[0] || p in projects[1..];
      if LinksGem(db, projects[0], gid) then [projects[0]] + rest else rest
  }

  /** `get_gem_projects`: the projects a gem belongs to, most recently
      updated first, each with its gem count. */
  function GetGemProjects(db: Db, gid: string): (r: seq<ProjectPreview>)
    ensures forall k :: 0 <= k < |r| ==> IndexOfLink(db.links, r[k].id, gid).Some?
    ensures forall k :: 0 <= k < |r| ==> r[k].gemCount == GemCount(db.links, r[k].id)
    ensures forall i, j :: 0 <= i < j < |r| ==> LexLeq(r[j].updatedAt, r[i].updatedAt)
  {
    Listing(SortedProjectsOf(db, gid), db.links)
  }

  function SortedProjectsOf(db: Db, gid: string): (s: seq<Project>)
    ensures forall k :: 0 <= k < |s| ==> LinksGem(db, s[k], gid)
    ensures Ordering.Descending(s, UpdatedAt)
  {
    var mine := ProjectsOf(db.projects, db, gid);
    Ordering.SortedFrom(mine, UpdatedAt);
    Ordering.SortDesc(mine, UpdatedAt)
  }

  /** Every project the gem is linked to is listed. */
  lemma {:induction false} GemProjectsComplete(db: Db, gid: string)
    ensures forall p :: p in db.projects && LinksGem(db, p, gid) ==> ToPreview(p, GemCount(db.links, p.id)) in GetGemProjects(db, gid)
  {
    var mine := ProjectsOf(db.projects, db, gid);
    var s := Ordering.SortDesc(mine, UpdatedAt);
    Ordering.SortedFrom(mine, UpdatedAt);
    var r := GetGemProjects(db, gid);
    assert s == SortedProjectsOf(db, gid);
    assert r == Listing(s, db.links);
    forall p | p in db.projects && LinksGem(db, p, gid) ensures ToPreview(p, GemCount(db.links, p.id)) in r {
      var k :| 0 <= k < |s| && s[k] == p;
      assert r[k] == ToPreview(p, GemCount(db.links, p.id));
    }
  }
}
