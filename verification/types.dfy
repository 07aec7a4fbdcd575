/** The records of types.ts. Dates are abstract instants (`int`); JavaScript numbers are integers here. */
module Types {
  import opened Wrappers

  /** `'admin' | 'user'`; the interface calls the second role "Consultor". */
  datatype Role = Admin | Consultant

  datatype User = User(id: string, name: string, email: string, password: Option<string>, role: Role)

  /** `Omit<User, 'id'>` as the provisioning form produces it. */
  datatype UserDraft = UserDraft(name: string, email: string, password: string, role: Role)

  datatype Specialist = General | IbmStorage

  datatype EntryKind = Proposta | DocumentoApoio | ChatLog

  datatype AuditEntry = AuditEntry(id: string, kind: EntryKind, title: string, content: string, timestamp: int)

  datatype ProjectFile = ProjectFile(id: string, name: string, size: int, mime: string, uploadDate: int, text: string)

  /** `Partial<AnalysisResult>`: the analysis service may leave any field out
      (an empty reply parses to `{}`), so every field is optional. */
  datatype Analysis = Analysis(
    classification: Option<string>,
    summary: Option<string>,
    keywords: Option<seq<string>>,
    requisitosTecnicos: Option<seq<string>>,
    tecnologiasSugeridas: Option<seq<string>>,
    slaExigido: Option<string>,
    riscosContratuais: Option<string>,
    fabricantesAderentes: Option<seq<string>>,
    atestadosExigidos: Option<seq<string>>,
    pontosAtencaoEspecialista: Option<string>)

  const NoAnalysis := Analysis(None, None, None, None, None, None, None, None, None, None)

  datatype Project = Project(
    id: string,
    ownerId: string,
    ownerEmail: string,
    name: string,
    createDate: int,
    files: seq<ProjectFile>,
    fullText: Option<string>,
    proposalTemplate: Option<string>,
    history: seq<AuditEntry>,
    specialist: Specialist,
    analysis: Analysis)

  datatype ProposalItem = ProposalItem(
    id: string, description: string, quantity: int, unit: string,
    brand: string, model: string, unitPrice: int)

  datatype CompanyInfo = CompanyInfo(
    name: string, cnpj: string, address: string, email: string,
    phone: string, representative: string, bankInfo: string)

  /** The main panel's tabs: `'analysis' | 'chat' | 'proposal' | 'admin'`. */
  datatype Tab = AnalysisTab | ChatTab | ProposalTab | AdminTab
}
