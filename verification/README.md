# VSDATA GovTech TR Analyzer — a Dafny model of the application state

VSDATA is a browser application in which consultants analyse public tender documents
(PDF "termos de referência"). It keeps a directory of accounts (administrators and
consultants), a collection of analysis projects owned by consultants, the audit history of
each project, and a proposal editor that turns a project into a commercial proposal.

This project models, in Dafny, the synchronous state logic of that application:

- `AppState.App` (app.dfy) is the state of `App.tsx`: `users`, `projects`, `currentUser`,
  `selectedProjectId`, `activeTab`. Each handler is a method that assigns the collection
  computed by a pure function. The class invariant `Valid()` says that nothing is selected
  while logged out or on the administration tab, and that a selected project is always one
  the current user can see. Every state-changing method preserves it.
- `Directory` (directory.dfy): seeding of the `admin-1` master account, provisioning with
  the e-mail uniqueness check that ignores case, and revocation that never removes the master.
- `Login` (login.dfy): the first-match lookup on exact e-mail and password.
- `Projects` (projects.dfy): project creation, PDF ingestion (file, audit entry, full text,
  analysis spread), archiving, template override and the per-role visibility filter.
- `UserManagement` (user_management.dfy): the provisioning form (`UserForm`, with its
  validation and reset), the role counters, the avatar strip and the protected master row.
- `Proposal` (proposal.dfy): the proposal item editor (`ProposalEditor`, whose list never
  becomes empty), the strings handed to the proposal generator, the template choice and
  the export names.
- `Text` and `Seqs` (text.dfy, seqs.dfy) model the JavaScript built-ins used:
  - `trim` and the `\s` class, with the ECMAScript white-space set;
  - `toLowerCase`, on ASCII only;
  - `a || b` on strings;
  - `replace(/\s+/g, '_')`, `join`, number-to-decimal conversion and `filter`;
  - `SplitOn`, a split at one character, which no handler calls: it is the inverse used to
    specify the join of the item lines at components/ProposalGenerator.tsx:97.
- `Types` (types.dfy) follows `types.ts`. The role `'user'` is called `Consultant`.
  Optional fields (`password`, `fullText`, `proposalTemplate`, the analysis fields) are `Option`s.

External effects are parameters:
- the text extracted from a PDF and the analysis returned by the AI service are `Result`s;
  a `Failure` stands for a thrown error;
- ids from `crypto.randomUUID()` are fresh-id arguments;
- the answer to `confirm()` is a boolean;
- the clock is an integer `now`;
- the stored users and projects are `Option`s.

The upload handler at
App.tsx:165 always writes `(p.fullText || '') + '\n\n' + text`, so `fullText` starts with a
blank line even after the first upload (`Projects.TwoUploads`).

## Model

| member | source | states |
|---|---|---|
| Directory.LoadUsers | App.tsx:34-40 | With no stored users the list is exactly the master account (`admin-1`, "Administrador Master", e-mail `admin`, password `123456`, administrator); otherwise it is the stored list. |
| Directory.AddUser | App.tsx:85-97 | Fails, with the "já está em uso" message, iff some existing e-mail equals the new one ignoring case. Otherwise it appends exactly one user at the end, with the fresh id and the draft's fields, and leaves the earlier entries untouched. |
| Directory.DeleteUser | App.tsx:99-108 | `admin-1`, or an unconfirmed request, leaves the list unchanged. A confirmed request removes every entry with that id and keeps every other entry; the result holds only original entries and is never longer than the list. |
| Directory.DeleteKeepsMaster | App.tsx:99-103 | The master account, once present, survives any deletion. |
| Directory.DeleteKeepsOrder | App.tsx:106 | Deletion distributes over concatenation, so the remaining users keep their order. |
| Directory.DeleteUndoesAdd | App.tsx:85-108 | A confirmed deletion of the user just added restores the previous list. |
| Directory.AddKeepsDistinct | App.tsx:85-97 | Adding keeps e-mails unique ignoring case, and keeps ids unique. |
| Directory.DeleteKeepsDistinct | App.tsx:99-108 | Deleting keeps e-mails unique ignoring case, and keeps ids unique. |
| Login.FirstMatch | components/Login.tsx:17 | Returns the index of the first user whose e-mail and password both equal the inputs; none means no user matches. |
| Login.Authenticate | components/Login.tsx:15-23 | Success returns a member of `users` whose credentials match, and no earlier user matches. It fails iff no user matches, always with the same generic message. |
| Login.PasswordlessNeverLogsIn | components/Login.tsx:17 | A user who logs in has a stored password, so an account without one can never log in. |
| Login.LoginIsCaseSensitive | components/Login.tsx:17 | The login match is case-sensitive while the duplicate check at App.tsx:86 is not: "ADMIN" cannot log in as the master, yet counts as a taken e-mail. |
| Text.TrimEmptyIffBlank | App.tsx:111 | `trim()` gives the empty string exactly when every character is ECMAScript white space. |
| Text.Trim | App.tsx:111 | The result is a contiguous slice of the input, everything cut before and after it is white space, and it neither starts nor ends with white space. |
| Text.ToLower | App.tsx:86 | Same length, and each character is lower-cased on its own (ASCII capitals map to small letters, all else is kept). |
| Projects.NewProject | App.tsx:110-122 | Nothing is created iff the name is blank or nobody is logged in. Otherwise the project has the fresh id and the untrimmed name. Its owner id and e-mail are the current user's. It has no files, no history, no text, no template and no analysis. |
| Projects.CreatedProjectComesFirst | App.tsx:124 | Prepending a project owned by the user puts it first in that user's visible list, followed by the old visible list. |
| Projects.AttentionReport | App.tsx:157 | The audit content is the specialist's attention points when present and non-empty, else "Relatório gerado com sucesso.". It is never empty. |
| Projects.Override | App.tsx:162-163 | One field of `{...p, ...analysis}`: a value the analysis carries wins, and an absent one keeps the project's. |
| Projects.Merge | App.tsx:162-163 | Each of the ten analysis fields is the new value when the analysis has one, and the old value otherwise. |
| Projects.Ingest | App.tsx:144-167 | One file and one `DOCUMENTO_APOIO` entry are appended at the end. `fullText` becomes the old text (or empty) plus a blank line plus the new text. Analysis fields are merged. Id, owner, name, date, specialist and template are unchanged. |
| Projects.MergeLaws | App.tsx:162-163 | Fields absent from the analysis keep their old values. A complete analysis replaces them all. Spreading the same analysis twice equals spreading it once. Spreading over an empty analysis gives the new one. |
| Projects.IngestAllAppends | App.tsx:164 | After any sequence of uploads, the files are the old files followed by the uploaded ones in order. Id and owner are unchanged. |
| Projects.IngestAllHistory | App.tsx:166 | After any sequence of uploads, the old history is a prefix. One entry per upload is added, and each added entry is `DOCUMENTO_APOIO`. |
| Projects.IngestAllText | App.tsx:165 | After one or more uploads, `fullText` is the old text followed by a blank line and each uploaded text, in upload order. |
| Projects.TwoUploads | App.tsx:165 | Two uploads into an empty project give two files, two entries and the text "\n\n" + t1 + "\n\n" + t2, with a leading blank line even before the first text. |
| Projects.AppendEntry | App.tsx:357-358 | History gains exactly the given entry at the end, and no other field changes. |
| Projects.WithTemplate | App.tsx:391 | Only `proposalTemplate` changes, and it becomes the given template. |
| Projects.UpdateWhere | App.tsx:161 | `map` by id: same length, projects with another id unchanged, matching projects transformed. |
| Projects.IngestInto | App.tsx:161-167 | Same length. The project with the selected id is replaced by its `Ingest`, and every other project is unchanged. |
| Projects.ArchiveInto | App.tsx:357-358 | With no selection the collection is unchanged. Otherwise the same length, the selected project gains the entry through `AppendEntry`, and every other project is unchanged. |
| Projects.TemplateInto | App.tsx:391 | Same length. The project with that id gets the template through `WithTemplate`, and every other project is unchanged. |
| Projects.UpdatersTouchOnlyTarget | App.tsx:161-167 | The upload, archive and template updaters leave every other project as it was. At the target they change exactly the fields they name. |
| Projects.Visible | App.tsx:217 | An administrator sees every project. Any other user sees exactly the projects they own, each once: the result is never longer than the collection. Nobody logged in sees none. |
| Projects.VisibleKeepsOrder | App.tsx:217 | The filter distributes over concatenation, so the visible projects keep collection order. |
| Projects.VisibleIsInCollection | App.tsx:217 | A project the current user can see is in the collection, so the `find` at App.tsx:216 always succeeds for a visible selection. |
| Projects.StillVisible | App.tsx:161-167 | An updater that keeps ids and owners keeps a visible selection visible. |
| AppState.App.constructor | App.tsx:13-54 | Users are loaded or seeded. Projects are the stored ones, or none when missing or unreadable. Nobody is logged in, nothing is selected, and the analysis tab is active. |
| AppState.App.Login | App.tsx:69-77 | Sets the current user. An administrator lands on the admin tab with nothing selected; a consultant lands on the analysis tab. |
| AppState.App.Logout | App.tsx:79-83 | Clears the session and the selection, and returns to the analysis tab. |
| AppState.App.AddUser | App.tsx:85-97 | The new users are `Directory.AddUser`'s result. On failure the list is unchanged and the message is returned. The invariant is kept. |
| AppState.App.DeleteUser | App.tsx:99-108 | The new users are `Directory.DeleteUser`'s result; `admin-1` is never affected. The invariant is kept. |
| AppState.App.CreateProject | App.tsx:110-129 | A blank name or no user changes nothing. Otherwise the project goes to index 0 ahead of the old projects in order, is selected, and the analysis tab opens. The invariant is kept. |
| AppState.App.UploadFile | App.tsx:131-178 | Ignored iff there is no file, the file is not `application/pdf`, nobody is logged in, or nothing is selected. Failed extraction or analysis changes nothing. A success ingests into the selected project only and opens the analysis tab. The missing-project case of the code cannot arise while the invariant holds (`Projects.VisibleIsInCollection`). |
| AppState.App.SaveDocument | App.tsx:356-359 | Appends one `DOCUMENTO_APOIO` entry to the selected project only. |
| AppState.App.SaveProposal | App.tsx:392-394 | Appends one `PROPOSTA` entry to the selected project only. |
| AppState.App.UpdateTemplate | App.tsx:391 | Only the template of the project with that id changes. |
| AppState.App.SelectProject | App.tsx:258-259 | A project from the sidebar's visible list becomes the selection and the analysis tab opens. |
| AppState.App.SwitchTab | App.tsx:304-306 | The analysis, chat and proposal buttons change the tab and keep the selection. |
| AppState.App.OpenAdminPanel | App.tsx:309-310 | For an administrator: the admin tab opens and the selection is cleared. |
| UserManagement.Validate | components/UserManagement.tsx:24-32 | A missing field gives the required-fields message. Otherwise a password shorter than 6 characters gives the security message. Otherwise there is no error; each case is an iff. |
| UserManagement.CountRole | components/UserManagement.tsx:49-50 | The count is the length of `users.filter(u => u.role === role)`. |
| UserManagement.ErrorText | components/UserManagement.tsx:43 | The shown error is the thrown message when it is non-empty, and exactly the fallback "Falha ao registrar novo perfil técnico." when it is empty. It is never empty. |
| UserManagement.UserForm.constructor | components/UserManagement.tsx:12-17 | Empty fields, the `'user'` role, no error, no success. |
| UserManagement.UserForm.Fill | components/UserManagement.tsx:102-143 | The inputs set the four form fields. |
| UserManagement.UserForm.Submit | components/UserManagement.tsx:19-45 | Called on a valid application state, which it keeps. A validation error is shown and the directory is left unchanged. A thrown duplicate shows its message and keeps the fields. Success adds the user through the application's handler, clears the fields, resets the role to `'user'` and sets success. |
| UserManagement.RolesPartition | components/UserManagement.tsx:47-51 | The administrator count plus the consultant count equals the number of users. |
| UserManagement.ComputeStats | components/UserManagement.tsx:47-51 | `total` is the number of users, `admins` and `consultants` are the lengths of the per-role filters, and `total == admins + consultants`. |
| UserManagement.Avatars | components/UserManagement.tsx:177 | At most 5 avatars, forming a prefix of the list: all users when there are at most 5, exactly the first 5 otherwise. |
| UserManagement.OverflowBadge | components/UserManagement.tsx:182-186 | The badge exists iff there are more than 5 users, and then shows exactly the number of users beyond the fifth. |
| UserManagement.AvatarsCountEveryone | components/UserManagement.tsx:177-186 | The avatars plus the badge count equal the number of users. |
| UserManagement.DeleteControlMatchesHandler | components/UserManagement.tsx:222-224 | The revoke control is offered exactly for the users that a confirmed deletion removes, that is everyone but `admin-1`. |
| Proposal.InitialItems | components/ProposalGenerator.tsx:38-40 | Exactly one item: id "1", description "Item 01 - " followed by the classification or "Solução Tecnológica", quantity 1, unit UN, price 0. |
| Proposal.Apply | components/ProposalGenerator.tsx:56 | Each edit sets the field it names to the given value and leaves every other field, the id included, unchanged. |
| Proposal.Edited | components/ProposalGenerator.tsx:55-57 | Same length and ids. Items with the id get the edit; every other item is unchanged. |
| Proposal.Removed | components/ProposalGenerator.tsx:59-61 | With one item or fewer, nothing changes. Otherwise no item keeps that id and every other item stays. Every remaining item comes from the list. |
| Proposal.RemovedKeepsOrder | components/ProposalGenerator.tsx:60 | Removal distributes over concatenation, so the remaining items keep their order. |
| Proposal.RemovedNeverEmpty | components/ProposalGenerator.tsx:59-61 | With distinct ids, removal leaves at least one item, and the ids stay distinct. |
| Proposal.ProposalEditor.constructor | components/ProposalGenerator.tsx:38-46 | The initial item list; the local template is the project's, or the default one. |
| Proposal.ProposalEditor.AddItem | components/ProposalGenerator.tsx:51-53 | Appends one blank item (quantity 1, unit UN, price 0) and leaves the earlier items unchanged. The list stays non-empty with distinct ids. |
| Proposal.ProposalEditor.UpdateItem | components/ProposalGenerator.tsx:55-57 | The items become `Edited`; the invariant is kept. |
| Proposal.ProposalEditor.RemoveItem | components/ProposalGenerator.tsx:59-61 | The items become `Removed`, and the list never becomes empty. |
| Proposal.ProposalEditor.SetLocalTemplate | components/ProposalGenerator.tsx:76 | The local template becomes the given text. |
| Proposal.ItemLines | components/ProposalGenerator.tsx:97 | One formatted line per item, in item order. |
| Proposal.ItemLine | components/ProposalGenerator.tsx:97 | The line starts with "- " and the description, and ends with the price field: a bar, "Preço: R$ " and the unit price in decimal. Between them come the quantity in decimal and the brand and model, each after its label. |
| Proposal.ItemsText | components/ProposalGenerator.tsx:97 | No items give the empty string, one item gives its line, and the text always starts with the first item's line. |
| Proposal.CompanyText | components/ProposalGenerator.tsx:96 | Starts with "Nome: " and the company name, and ends with ", E-mail: " and the e-mail. Between them come ", CNPJ: " with the CNPJ and ", Endereço: " with the address. |
| Proposal.ItemLineIsOneLine | components/ProposalGenerator.tsx:97 | An item whose text fields have no line break renders as a single line. |
| Proposal.ItemsTextHasOneLinePerItem | components/ProposalGenerator.tsx:97 | Splitting `itemsStr` at line breaks gives back exactly the item lines, in order. |
| Text.IntToString | components/ProposalGenerator.tsx:97 | A non-negative number is rendered as decimal digits whose value is the number, with no leading zero. A negative number is "-" followed by the digits of its magnitude, again with no leading zero. |
| Text.NatToStringRoundTrip | components/ProposalGenerator.tsx:97 | Reading back the rendered digits gives the number. |
| Proposal.TemplateSent | components/ProposalGenerator.tsx:103 | The project's template when it is non-empty, otherwise the local template. |
| Proposal.InitialLocalTemplate | components/ProposalGenerator.tsx:46 | The project's template when it is present and non-empty; the default template when it is missing or empty. Never empty. |
| Proposal.HasCustomTemplate | components/ProposalGenerator.tsx:129 | A stored copy of the default template is not custom. When it holds, the project has a template and the generator is always sent that template. When it does not, the editor starts from the default template. |
| Proposal.TemplateAtMount | components/ProposalGenerator.tsx:129 | Before any edit, the generator receives the custom template exactly when `hasCustomTemplate` holds, and the default template otherwise. |
| Proposal.BuildRequest | components/ProposalGenerator.tsx:94-104 | The context is the project's full text, or empty. The company and items strings are `CompanyText` and `ItemsText` of the inputs. The template is the one `TemplateSent` chooses. |
| Text.ReplaceSpaceRuns | components/ProposalGenerator.tsx:124 | Empty iff the input is empty. The result contains no white space and is no longer than the input. Its value on words and on runs is fixed by the two laws below. |
| Text.ReplaceSpaceRunsKeepsText | components/ProposalGenerator.tsx:124 | Apart from underscores, the result has the same characters in the same order as the input without white space and underscores. |
| Text.ReplaceSpaceRunsKeepsWords | components/ProposalGenerator.tsx:124 | A name without white space is left unchanged. |
| Text.ReplaceSpaceRunsAtRun | components/ProposalGenerator.tsx:124 | A whole run of white space between two words becomes exactly one `_`: for a blank run g between a and b, the result is the replacement of a, then `_`, then the replacement of b. |
| Proposal.ExportStem | components/ProposalGenerator.tsx:124 | Never empty and free of white space. It is "Final" for an empty name, and otherwise the name with its white-space runs turned into `_`. |
| Proposal.ExportFilename | components/ProposalGenerator.tsx:124 | Starts with "Proposta_VSDATA_", ends with ".doc", and between them holds the stem. |
| Proposal.ProposalTitle | components/ProposalGenerator.tsx:107 | "Proposta Final - " followed by the company name, or "Empresa" when the name is empty. |
| Proposal.SavedProposal | components/ProposalGenerator.tsx:106-107 | What is archived: that title, and the generator's reply or the empty string. |
| Text.SplitJoin | components/ProposalGenerator.tsx:97 | `SplitOn` inverts the join at this line: joining parts that contain no separator and splitting again returns the parts. |
| Text.Join | components/ProposalGenerator.tsx:97 | No parts give the empty string, one part gives itself, and the result always starts with the first part. |
| Text.SplitOn | components/ProposalGenerator.tsx:97 | A split at one character, the specification inverse of the join at this line (no handler calls `split`). At least one piece, no piece contains the separator, and a string without the separator splits into itself. |

## Left out

- Chat (App.tsx:180-214): an AI round trip whose only synchronous part appends a message to a list that is never persisted.
- Local storage, `JSON.parse`/`JSON.stringify` and the revival of `Date`s (App.tsx:30-63): the load is abstracted as optional stored users and projects. An unreadable project list is `None`.
- The AI service (services/geminiService.ts) and PDF text extraction (services/pdfService): their results are parameters of `UploadFile` and inputs of `SavedProposal`. services/pdfService is not part of this model.
- `crypto.randomUUID()`: the ids of users, projects and proposal items are arguments required not to be in use. File and audit-entry ids are unconstrained arguments.
- `confirm` and `alert`: confirmation is a boolean argument and alerts are not modelled.
- The success banner's 3-second `setTimeout` reset, the loading flags (`isProcessing`, `isGenerating`, `isTemplateLoading`) and async interleavings.
- Markdown rendering, the Word export's HTML, Blob, object URL and anchor click: only the file name is modelled.
- The company-details form of the proposal screen: `CompanyInfo` is an input.
- The template file upload (components/ProposalGenerator.tsx:63-86) and `saveTemplate` (88-91) are modelled as `SetLocalTemplate` followed by `AppState.App.UpdateTemplate`; the file reading itself is left out.
- The presentation components (AnalysisView, ProcessFolder, DocumentCard): they only show history in reverse and truncate titles.
- JavaScript numbers are unbounded integers. `IntToString` renders integers only, with no fractions or exponents.
- Text.ToLower, Directory.AddUser: `toLowerCase` is modelled on ASCII letters only. Two e-mails that differ only in non-ASCII letters count as distinct here, though the browser would fold them.
- UserManagement.Validate: the password length is counted in characters. JavaScript counts UTF-16 code units, so astral characters count once here instead of twice.
- Proposal.ProposalEditor.UpdateItem: an edit of the `id` field is not modelled. The editor never offers one, and it would break the distinct-id invariant.
- Projects.Ingest: the analysis is a record of the ten schema fields. Extra keys in the service's JSON, and `null` values, are not modelled.
- Projects.Visible, Directory.DeleteUser, Proposal.Removed: order preservation is stated as distribution over concatenation (`VisibleKeepsOrder`, `DeleteKeepsOrder`, `RemovedKeepsOrder`), not as an explicit index map.
- Persistence effects (App.tsx:57-63): writes of `users` and `projects` after each change.
