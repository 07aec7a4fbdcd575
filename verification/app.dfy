/** The application state of App.tsx and its handlers. Each handler assigns to the state
    fields the collections the pure functions of Directory and Projects compute. */
module AppState {
  import opened Wrappers
  import opened Types
  import Directory
  import opened Projects

  /** The picked file as the browser describes it. */
  datatype FileInfo = FileInfo(name: string, size: int, mime: string)

  /** How `handleFileUpload` ended. Every ending but Ingested leaves the state as it was. */
  datatype UploadOutcome = Ignored | ExtractionFailed | ProjectMissing | AnalysisFailed | Ingested

  class App {
    var users: seq<User>
    var projects: seq<Project>
    var currentUser: Option<User>
    var selectedProjectId: Option<string>
    var activeTab: Tab

    /** Nothing is selected while logged out or on the administration tab, and a selected
        project is always one of those the current user can see. */
    ghost predicate Valid()
      reads this
    {
      && (currentUser.None? ==> selectedProjectId.None?)
      && (activeTab == AdminTab ==> selectedProjectId.None?)
      && (selectedProjectId.Some? ==> HasProject(Visible(projects, currentUser), selectedProjectId.value))
    }

    /** The initial state and the loading effect: stored users (or the seeded master account)
        and stored projects; a missing or unreadable project list gives no projects. */
    constructor (savedUsers: Option<seq<User>>, savedProjects: Option<seq<Project>>)
      ensures Valid()
      ensures users == Directory.LoadUsers(savedUsers)
      ensures projects == (if savedProjects.Some? then savedProjects.value else [])
      ensures currentUser.None? && selectedProjectId.None? && activeTab == AnalysisTab
    {
      users := Directory.LoadUsers(savedUsers);
      projects := if savedProjects.Some? then savedProjects.value else [];
      currentUser := None;
      selectedProjectId := None;
      activeTab := AnalysisTab;
    }

    /** `handleLogin`, reached only from the login screen. Administrators land on the
        administration tab with nothing selected. */
    method Login(user: User)
      requires Valid() && currentUser.None?
      modifies this`currentUser, this`activeTab, this`selectedProjectId
      ensures Valid()
      ensures currentUser == Some(user)
      ensures user.role == Admin ==> activeTab == AdminTab && selectedProjectId.None?
      ensures user.role != Admin ==> activeTab == AnalysisTab && selectedProjectId == old(selectedProjectId)
    {
      currentUser := Some(user);
      if user.role == Admin {
        activeTab := AdminTab;
        selectedProjectId := None;
      } else {
        activeTab := AnalysisTab;
      }
    }

    /** `handleLogout`: only the session is cleared; users and projects stay. */
    method Logout()
      modifies this`currentUser, this`activeTab, this`selectedProjectId
      ensures Valid()
      ensures currentUser.None? && activeTab == AnalysisTab && selectedProjectId.None?
    {
      currentUser := None;
      activeTab := AnalysisTab;
      selectedProjectId := None;
    }

    /** `handleAddUser`; the thrown error becomes the returned message. */
    method AddUser(draft: UserDraft, freshId: string) returns (error: Option<string>)
      requires Valid() && !Directory.HasUserId(users, freshId)
      modifies this`users
      ensures Valid()
      ensures var r := Directory.AddUser(old(users), draft, freshId);
        && (r.Success? ==> users == r.value && error.None?)
        && (r.Failure? ==> users == old(users) && error == Some(r.error))
    {
      var r := Directory.AddUser(users, draft, freshId);
      if r.Success? {
        users := r.value;
        error := None;
      } else {
        error := Some(r.error);
      }
    }

    /** `handleDeleteUser`; `confirmed` is the answer to the confirmation dialog. */
    method DeleteUser(id: string, confirmed: bool)
      requires Valid()
      modifies this`users
      ensures Valid()
      ensures users == Directory.DeleteUser(old(users), id, confirmed)
      ensures id == Directory.MasterId ==> users == old(users)
    {
      users := Directory.DeleteUser(users, id, confirmed);
    }

    /** `handleCreateProject`: nothing happens for a blank name or with nobody logged in;
        otherwise the new project goes first and becomes the selection. */
    method CreateProject(name: string, specialist: Specialist, freshId: string, now: int)
      requires Valid() && !HasProject(projects, freshId)
      modifies this`projects, this`selectedProjectId, this`activeTab
      ensures Valid()
      ensures var made := NewProject(name, specialist, old(currentUser), freshId, now);
        && (made.None? ==> projects == old(projects) && selectedProjectId == old(selectedProjectId) && activeTab == old(activeTab))
        && (made.Some? ==> projects == [made.value] + old(projects) && selectedProjectId == Some(freshId) && activeTab == AnalysisTab)
    {
      var made := NewProject(name, specialist, currentUser, freshId, now);
      if made.Some? {
        CreatedProjectComesFirst(projects, made.value, currentUser.value);
        projects := [made.value] + projects;
        selectedProjectId := Some(freshId);
        activeTab := AnalysisTab;
        assert Visible(projects, currentUser)[0].id == freshId;
      }
    }

    /** `handleFileUpload` with the extracted text and the analysis as given results
        (a failure stands for a thrown error, which is caught and changes nothing). */
    method UploadFile(file: Option<FileInfo>, extracted: Result<string, string>, analysis: Result<Analysis, string>,
                      fileId: string, entryId: string, now: int) returns (outcome: UploadOutcome)
      requires Valid()
      modifies this`projects, this`activeTab
      ensures Valid()
      ensures outcome == Ignored <==>
        file.None? || file.value.mime != PdfMime || currentUser.None? || selectedProjectId.None?
      ensures outcome == ExtractionFailed <==> outcome != Ignored && extracted.Failure?
      ensures outcome == AnalysisFailed <==> outcome !in {Ignored, ExtractionFailed} && analysis.Failure?
      // Under Valid() the selected project is always in the collection, so ProjectMissing
      // cannot occur; the clause records the source's guard and is vacuous here.
      ensures outcome == ProjectMissing ==> !HasProject(old(projects), selectedProjectId.value)
      ensures outcome != Ingested ==> projects == old(projects) && activeTab == old(activeTab)
      ensures outcome == Ingested ==>
        && projects == IngestInto(old(projects), selectedProjectId.value,
             Upload(ProjectFile(fileId, file.value.name, file.value.size, file.value.mime, now, extracted.value),
                    entryId, now, analysis.value))
        && activeTab == AnalysisTab
    {
      if file.None? || file.value.mime != PdfMime || currentUser.None? || selectedProjectId.None? {
        return Ignored;
      }
      if extracted.Failure? {
        return ExtractionFailed;
      }
      var id := selectedProjectId.value;
      if !HasProject(projects, id) {
        return ProjectMissing;
      }
      if analysis.Failure? {
        return AnalysisFailed;
      }
      var u := Upload(ProjectFile(fileId, file.value.name, file.value.size, file.value.mime, now, extracted.value),
                      entryId, now, analysis.value);
      StillVisible(projects, id, p => Ingest(p, u), currentUser, id);
      projects := IngestInto(projects, id, u);
      activeTab := AnalysisTab;
      outcome := Ingested;
    }

    /** `onSaveDocument`: one DOCUMENTO_APOIO entry on the selected project. */
    method SaveDocument(title: string, content: string, entryId: string, now: int)
      requires Valid()
      modifies this`projects
      ensures Valid()
      ensures projects == ArchiveInto(old(projects), selectedProjectId, AuditEntry(entryId, DocumentoApoio, title, content, now))
    {
      Archive(AuditEntry(entryId, DocumentoApoio, title, content, now));
    }

    /** `onSaveProposal`: one PROPOSTA entry on the selected project. */
    method SaveProposal(title: string, content: string, entryId: string, now: int)
      requires Valid()
      modifies this`projects
      ensures Valid()
      ensures projects == ArchiveInto(old(projects), selectedProjectId, AuditEntry(entryId, Proposta, title, content, now))
    {
      Archive(AuditEntry(entryId, Proposta, title, content, now));
    }

    method Archive(entry: AuditEntry)
      requires Valid()
      modifies this`projects
      ensures Valid()
      ensures projects == ArchiveInto(old(projects), selectedProjectId, entry)
    {
      if selectedProjectId.Some? {
        var id := selectedProjectId.value;
        StillVisible(projects, id, p => AppendEntry(p, entry), currentUser, id);
      }
      projects := ArchiveInto(projects, selectedProjectId, entry);
    }

    /** `onUpdateDoc`: the template of the project with that id, and nothing else. */
    method UpdateTemplate(id: string, template: string)
      requires Valid()
      modifies this`projects
      ensures Valid()
      ensures projects == TemplateInto(old(projects), id, template)
    {
      if selectedProjectId.Some? {
        StillVisible(projects, id, p => WithTemplate(p, template), currentUser, selectedProjectId.value);
      }
      projects := TemplateInto(projects, id, template);
    }

    /** A click on a project of the sidebar, which lists the visible projects. */
    method SelectProject(id: string)
      requires Valid() && currentUser.Some? && HasProject(Visible(projects, currentUser), id)
      modifies this`selectedProjectId, this`activeTab
      ensures Valid()
      ensures selectedProjectId == Some(id) && activeTab == AnalysisTab
    {
      selectedProjectId := Some(id);
      activeTab := AnalysisTab;
    }

    /** The analysis, chat and proposal tab buttons: the selection is kept. */
    method SwitchTab(tab: Tab)
      requires Valid() && tab != AdminTab
      modifies this`activeTab
      ensures Valid()
      ensures activeTab == tab
    {
      activeTab := tab;
    }

    /** The administration tab, offered to administrators only. */
    method OpenAdminPanel()
      requires Valid() && currentUser.Some? && currentUser.value.role == Admin
      modifies this`selectedProjectId, this`activeTab
      ensures Valid()
      ensures activeTab == AdminTab && selectedProjectId.None?
    {
      activeTab := AdminTab;
      selectedProjectId := None;
    }
  }
}
