/** The project collection of App.tsx as values: creation, PDF ingestion, archiving,
    template override and the per-role visibility filter. */
module Projects {
  import opened Wrappers
  import opened Types
  import opened Text
  import Seqs

  const PdfMime := "application/pdf"
  const SuccessReport := "Relatório gerado com sucesso."

  predicate HasProject(ps: seq<Project>, id: string)
  {
    exists i :: 0 <= i < |ps| && ps[i].id == id
  }

  /** The record `handleCreateProject` builds, or nothing when the typed name trims to the
      empty string or nobody is logged in. The name is stored untrimmed. */
  function NewProject(name: string, specialist: Specialist, owner: Option<User>, freshId: string, now: int): (r: Option<Project>)
    ensures r.None? <==> IsBlank(name) || owner.None?
    ensures r.Some? ==>
      && r.value.id == freshId && r.value.name == name && r.value.createDate == now
      && r.value.ownerId == owner.value.id && r.value.ownerEmail == owner.value.email
      && r.value.files == [] && r.value.history == [] && r.value.specialist == specialist
      && r.value.fullText.None? && r.value.proposalTemplate.None? && r.value.analysis == NoAnalysis
  {
    TrimEmptyIffBlank(name);
    if Trim(name) == "" || owner.None? then None
    else Some(Project(freshId, owner.value.id, owner.value.email, name, now, [], None, None, [], specialist, NoAnalysis))
  }

  /** One field of `{ ...p, ...analysis }`: a field the analysis carries wins. */
  function Override<T>(was: Option<T>, given: Option<T>): (r: Option<T>)
    ensures given.Some? ==> r == given
    ensures given.None? ==> r == was
  {
    if given.Some? then given else was
  }

  /** The analysis fields after spreading a new analysis over a project. */
  function Merge(a: Analysis, b: Analysis): (r: Analysis)
    ensures r.classification == Override(a.classification, b.classification)
    ensures r.summary == Override(a.summary, b.summary)
    ensures r.keywords == Override(a.keywords, b.keywords)
    ensures r.requisitosTecnicos == Override(a.requisitosTecnicos, b.requisitosTecnicos)
    ensures r.tecnologiasSugeridas == Override(a.tecnologiasSugeridas, b.tecnologiasSugeridas)
    ensures r.slaExigido == Override(a.slaExigido, b.slaExigido)
    ensures r.riscosContratuais == Override(a.riscosContratuais, b.riscosContratuais)
    ensures r.fabricantesAderentes == Override(a.fabricantesAderentes, b.fabricantesAderentes)
    ensures r.atestadosExigidos == Override(a.atestadosExigidos, b.atestadosExigidos)
    ensures r.pontosAtencaoEspecialista == Override(a.pontosAtencaoEspecialista, b.pontosAtencaoEspecialista)
  {
    Analysis(
      Override(a.classification, b.classification),
      Override(a.summary, b.summary),
      Override(a.keywords, b.keywords),
      Override(a.requisitosTecnicos, b.requisitosTecnicos),
      Override(a.tecnologiasSugeridas, b.tecnologiasSugeridas),
      Override(a.slaExigido, b.slaExigido),
      Override(a.riscosContratuais, b.riscosContratuais),
      Override(a.fabricantesAderentes, b.fabricantesAderentes),
      Override(a.atestadosExigidos, b.atestadosExigidos),
      Override(a.pontosAtencaoEspecialista, b.pontosAtencaoEspecialista))
  }

  predicate Complete(a: Analysis)
  {
    a.classification.Some? && a.summary.Some? && a.keywords.Some? && a.requisitosTecnicos.Some?
    && a.tecnologiasSugeridas.Some? && a.slaExigido.Some? && a.riscosContratuais.Some?
    && a.fabricantesAderentes.Some? && a.atestadosExigidos.Some? && a.pontosAtencaoEspecialista.Some?
  }

  /** Absent fields keep their values; a complete analysis replaces them all; merging the
      same analysis twice is merging it once. */
  lemma MergeLaws(a: Analysis, b: Analysis)
    ensures Merge(a, NoAnalysis) == a
    ensures Complete(b) ==> Merge(a, b) == b
    ensures Merge(Merge(a, b), b) == Merge(a, b)
    ensures Merge(NoAnalysis, b) == b
  {
    MergeAbsent(a);
    MergeComplete(a, b);
    MergeTwice(a, b);
    MergeIntoNothing(b);
  }

  lemma MergeAbsent(a: Analysis)
    ensures Merge(a, NoAnalysis) == a
  {
  }

  lemma MergeComplete(a: Analysis, b: Analysis)
    ensures Complete(b) ==> Merge(a, b) == b
  {
  }

  lemma MergeTwice(a: Analysis, b: Analysis)
    ensures Merge(Merge(a, b), b) == Merge(a, b)
  {
  }

  lemma MergeIntoNothing(b: Analysis)
    ensures Merge(NoAnalysis, b) == b
  {
  }

  /** The content of the upload's audit entry: the specialist's attention points, or the
      stock success message when they are missing or empty. Never empty. */
  function AttentionReport(a: Analysis): (r: string)
    ensures r != ""
    ensures a.pontosAtencaoEspecialista.Some? && a.pontosAtencaoEspecialista.value != "" ==> r == a.pontosAtencaoEspecialista.value
    ensures a.pontosAtencaoEspecialista.None? || a.pontosAtencaoEspecialista.value == "" ==> r == SuccessReport
  {
    OptOr(a.pontosAtencaoEspecialista, SuccessReport)
  }

  /** What one successful upload contributes: the file record (with its extracted text),
      the id and instant of its audit entry, and the analysis the service returned. */
  datatype Upload = Upload(file: ProjectFile, entryId: string, now: int, analysis: Analysis)

  function ReportEntry(u: Upload): AuditEntry
  {
    AuditEntry(u.entryId, DocumentoApoio, "Análise Inicial: " + u.file.name, AttentionReport(u.analysis), u.now)
  }

  /** The project record after an upload: one more file, one more DOCUMENTO_APOIO entry,
      the text appended after a blank line, the analysis spread over the old fields. */
  function Ingest(p: Project, u: Upload): (r: Project)
    ensures r.files == p.files + [u.file]
    ensures r.history == p.history + [ReportEntry(u)] && ReportEntry(u).kind == DocumentoApoio
    ensures r.fullText == Some(OptOr(p.fullText, "") + "\n\n" + u.file.text)
    ensures r.analysis == Merge(p.analysis, u.analysis)
    ensures r.id == p.id && r.ownerId == p.ownerId && r.ownerEmail == p.ownerEmail && r.name == p.name
    ensures r.createDate == p.createDate && r.specialist == p.specialist && r.proposalTemplate == p.proposalTemplate
  {
    p.(files := p.files + [u.file],
       fullText := Some(OptOr(p.fullText, "") + "\n\n" + u.file.text),
       history := p.history + [ReportEntry(u)],
       analysis := Merge(p.analysis, u.analysis))
  }

  /** Several uploads in turn. */
  function IngestAll(p: Project, us: seq<Upload>): Project
    decreases |us|
  {
    if us == [] then p else IngestAll(Ingest(p, us[0]), us[1..])
  }

  /** The text each upload appends to `fullText`. */
  function Blocks(us: seq<Upload>): string
  {
    if us == [] then "" else "\n\n" + us[0].file.text + Blocks(us[1..])
  }

  function FilesOf(us: seq<Upload>): (r: seq<ProjectFile>)
    ensures |r| == |us| && forall i :: 0 <= i < |us| ==> r[i] == us[i].file
  {
    seq(|us|, i requires 0 <= i < |us| => us[i].file)
  }

  /** `files` only grow, in upload order; identity fields never change. */
  lemma {:induction false} IngestAllAppends(p: Project, us: seq<Upload>)
    ensures IngestAll(p, us).files == p.files + FilesOf(us)
    ensures IngestAll(p, us).id == p.id && IngestAll(p, us).ownerId == p.ownerId
    decreases |us|
  {
    if us != [] {
      IngestAllAppends(Ingest(p, us[0]), us[1..]);
      FilesOfCons(us);
    }
  }

  lemma FilesOfCons(us: seq<Upload>)
    requires us != []
    ensures FilesOf(us) == [us[0].file] + FilesOf(us[1..])
  {
  }

  /** `history` keeps its old entries as a prefix and gains one DOCUMENTO_APOIO entry per upload. */
  lemma {:induction false} IngestAllHistory(p: Project, us: seq<Upload>)
    ensures |IngestAll(p, us).history| == |p.history| + |us|
    ensures IngestAll(p, us).history[..|p.history|] == p.history
    ensures forall k :: |p.history| <= k < |IngestAll(p, us).history| ==> IngestAll(p, us).history[k].kind == DocumentoApoio
    decreases |us|
  {
    if us != [] {
      var q := Ingest(p, us[0]);
      IngestAllHistory(q, us[1..]);
      var h := IngestAll(p, us).history;
      assert h == IngestAll(q, us[1..]).history;
      assert h[..|q.history|] == q.history;
      assert q.history[..|p.history|] == p.history;
    }
  }

  /** `fullText` is the old text followed by a blank line and each uploaded text, in order. */
  lemma {:induction false} IngestAllText(p: Project, us: seq<Upload>)
    requires us != []
    ensures IngestAll(p, us).fullText == Some(OptOr(p.fullText, "") + Blocks(us))
    decreases |us|
  {
    var q := Ingest(p, us[0]);
    var x, t := OptOr(p.fullText, ""), us[0].file.text;
    assert Blocks(us) == "\n\n" + t + Blocks(us[1..]);
    if us[1..] == [] {
      assert IngestAll(p, us) == q;
      assert "\n\n" + t + Blocks([]) == "\n\n" + t;
      Assoc(x, "\n\n", t);
    } else {
      IngestAllText(q, us[1..]);
      assert |x + "\n\n" + t| >= 2;
      BlockAfter(x, t, Blocks(us[1..]));
    }
  }

  lemma BlockAfter(x: string, t: string, rest: string)
    ensures x + "\n\n" + t + rest == x + ("\n\n" + t + rest)
  {
    Assoc(x + "\n\n", t, rest);
    Assoc(x, "\n\n", t + rest);
    Assoc("\n\n", t, rest);
  }

  /** Two uploads into a project that has none: two files, two entries, and both texts
      in order, each after a blank line (the first one included). */
  lemma TwoUploads(p: Project, u1: Upload, u2: Upload)
    requires p.files == [] && p.history == [] && p.fullText.None?
    ensures |IngestAll(p, [u1, u2]).files| == 2 && |IngestAll(p, [u1, u2]).history| == 2
    ensures IngestAll(p, [u1, u2]).fullText == Some("\n\n" + u1.file.text + "\n\n" + u2.file.text)
  {
    IngestAllAppends(p, [u1, u2]);
    IngestAllHistory(p, [u1, u2]);
    IngestAllText(p, [u1, u2]);
    assert [u1, u2][1..] == [u2];
    assert Blocks([u2]) == "\n\n" + u2.file.text + Blocks([]);
    assert Blocks([u1, u2]) == "\n\n" + u1.file.text + Blocks([u2]);
    assert "\n\n" + u2.file.text + Blocks([]) == "\n\n" + u2.file.text;
    assert OptOr(p.fullText, "") == "";
    assert "" + Blocks([u1, u2]) == "\n\n" + u1.file.text + "\n\n" + u2.file.text;
  }

  /** `{ ...p, history: [...p.history, entry] }`. */
  function AppendEntry(p: Project, entry: AuditEntry): (r: Project)
    ensures r.history == p.history + [entry]
    ensures r == p.(history := r.history)
  {
    p.(history := p.history + [entry])
  }

  /** `{ ...p, proposalTemplate: template }`. */
  function WithTemplate(p: Project, template: string): (r: Project)
    ensures r.proposalTemplate == Some(template)
    ensures r == p.(proposalTemplate := r.proposalTemplate)
  {
    p.(proposalTemplate := Some(template))
  }

  /** `ps.map(p => p.id === id ? f(p) : p)`. */
  function UpdateWhere(ps: seq<Project>, id: string, f: Project -> Project): (r: seq<Project>)
    ensures |r| == |ps|
    ensures forall i :: 0 <= i < |ps| && ps[i].id != id ==> r[i] == ps[i]
    ensures forall i :: 0 <= i < |ps| && ps[i].id == id ==> r[i] == f(ps[i])
  {
    seq(|ps|, i requires 0 <= i < |ps| => if ps[i].id == id then f(ps[i]) else ps[i])
  }

  /** The upload's collection update. */
  function IngestInto(ps: seq<Project>, id: string, u: Upload): (r: seq<Project>)
    ensures |r| == |ps|
    ensures forall i :: 0 <= i < |ps| ==> r[i] == (if ps[i].id == id then Ingest(ps[i], u) else ps[i])
  {
    UpdateWhere(ps, id, p => Ingest(p, u))
  }

  /** `onSaveDocument` / `onSaveProposal`: with no selection no id matches. */
  function ArchiveInto(ps: seq<Project>, selected: Option<string>, entry: AuditEntry): (r: seq<Project>)
    ensures selected.None? ==> r == ps
    ensures |r| == |ps|
    ensures selected.Some? ==>
      forall i :: 0 <= i < |ps| ==> r[i] == (if ps[i].id == selected.value then AppendEntry(ps[i], entry) else ps[i])
  {
    if selected.None? then ps else UpdateWhere(ps, selected.value, p => AppendEntry(p, entry))
  }

  /** `onUpdateDoc`. */
  function TemplateInto(ps: seq<Project>, id: string, template: string): (r: seq<Project>)
    ensures |r| == |ps|
    ensures forall i :: 0 <= i < |ps| ==> r[i] == (if ps[i].id == id then WithTemplate(ps[i], template) else ps[i])
  {
    UpdateWhere(ps, id, p => WithTemplate(p, template))
  }

  /** An updater of the three kinds above leaves every other project as it was, changes at
      the target exactly the fields it names, and never changes an id or an owner. */
  lemma UpdatersTouchOnlyTarget(ps: seq<Project>, id: string, u: Upload, entry: AuditEntry, template: string, i: nat)
    requires i < |ps|
    ensures |IngestInto(ps, id, u)| == |ArchiveInto(ps, Some(id), entry)| == |TemplateInto(ps, id, template)| == |ps|
    ensures ps[i].id != id ==>
      IngestInto(ps, id, u)[i] == ArchiveInto(ps, Some(id), entry)[i] == TemplateInto(ps, id, template)[i] == ps[i]
    ensures ps[i].id == id ==>
      && IngestInto(ps, id, u)[i] == Ingest(ps[i], u)
      && ArchiveInto(ps, Some(id), entry)[i] == ps[i].(history := ps[i].history + [entry])
      && TemplateInto(ps, id, template)[i] == ps[i].(proposalTemplate := Some(template))
  {
  }

  function OwnedBy(uid: Option<string>): Project -> bool
  {
    (p: Project) => uid == Some(p.ownerId)
  }

  /** `filteredProjects`: an administrator sees the whole collection; anyone else the projects
      they own, in collection order; with nobody logged in `ownerId === undefined` never holds. */
  function Visible(ps: seq<Project>, user: Option<User>): (r: seq<Project>)
    ensures |r| <= |ps|
    ensures user.Some? && user.value.role == Admin ==> r == ps
    ensures user.Some? && user.value.role != Admin ==>
      && (forall i :: 0 <= i < |r| ==> r[i] in ps && r[i].ownerId == user.value.id)
      && (forall i :: 0 <= i < |ps| && ps[i].ownerId == user.value.id ==> ps[i] in r)
    ensures user.None? ==> r == []
  {
    if user.Some? && user.value.role == Admin then ps
    else
      var uid := if user.Some? then Some(user.value.id) else None;
      if user.None? then Seqs.FilterKeepsNone(ps, OwnedBy(uid)); Seqs.Filter(ps, OwnedBy(uid))
      else Seqs.Filter(ps, OwnedBy(uid))
  }

  /** The filter keeps collection order: it distributes over concatenation. */
  lemma VisibleKeepsOrder(a: seq<Project>, b: seq<Project>, user: Option<User>)
    ensures Visible(a + b, user) == Visible(a, user) + Visible(b, user)
  {
    if user.None? {
      Seqs.FilterKeepsNone(a, OwnedBy(None));
      Seqs.FilterKeepsNone(b, OwnedBy(None));
    } else if user.value.role != Admin {
      Seqs.FilterConcat(a, b, OwnedBy(Some(user.value.id)));
    }
  }

  /** Every visible project belongs to the collection. */
  lemma VisibleIsInCollection(ps: seq<Project>, user: Option<User>, id: string)
    requires HasProject(Visible(ps, user), id)
    ensures HasProject(ps, id)
  {
    var v := Visible(ps, user);
    var k :| 0 <= k < |v| && v[k].id == id;
    assert v[k] in ps;
  }

  /** A project created by a user is first in that user's list, followed by what they saw before. */
  lemma {:induction false} CreatedProjectComesFirst(ps: seq<Project>, p: Project, u: User)
    requires p.ownerId == u.id
    ensures Visible([p] + ps, Some(u)) == [p] + Visible(ps, Some(u))
  {
    if u.role != Admin {
      Seqs.FilterConcat([p], ps, OwnedBy(Some(u.id)));
    }
  }

  /** An updater that keeps ids and owners keeps every project visible that was visible. */
  lemma StillVisible(ps: seq<Project>, id: string, f: Project -> Project, user: Option<User>, sid: string)
    requires forall p :: f(p).id == p.id && f(p).ownerId == p.ownerId
    requires HasProject(Visible(ps, user), sid)
    ensures HasProject(Visible(UpdateWhere(ps, id, f), user), sid)
  {
    var v := Visible(ps, user);
    var r := UpdateWhere(ps, id, f);
    var k :| 0 <= k < |v| && v[k].id == sid;
    var i :| 0 <= i < |ps| && ps[i] == v[k];
    assert r[i].id == sid && r[i].ownerId == ps[i].ownerId;
    if user.Some? && user.value.role != Admin {
      assert r[i] in Visible(r, user);
      var j :| 0 <= j < |Visible(r, user)| && Visible(r, user)[j] == r[i];
    }
  }
}
