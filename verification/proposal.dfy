/** The proposal screen (components/ProposalGenerator.tsx): the editable item list, the
    strings handed to the proposal generator, the template choice and the export names. */
module Proposal {
  import opened Wrappers
  import opened Types
  import opened Text
  import Seqs

  const DefaultTemplate :=
    "# PROPOSTA COMERCIAL E TÉCNICA\n\n"
    + "## 1. IDENTIFICAÇÃO DA PROPONENTE\n"
    + "**Empresa:** {{NOME_EMPRESA}}\n"
    + "**CNPJ:** {{CNPJ}}\n"
    + "**Endereço:** {{ENDERECO}}\n\n"
    + "## 2. OBJETO\n"
    + "A presente proposta tem por objeto o fornecimento de solução tecnológica conforme especificações contidas no edital.\n\n"
    + "## 3. ESPECIFICAÇÕES TÉCNICAS E PREÇOS\n"
    + "{{TABELA_ITENS}}\n\n"
    + "## 4. VALIDADE DA PROPOSTA\n"
    + "60 (sessenta) dias a contar da data de apresentação.\n\n"
    + "## 5. PRAZO DE ENTREGA E GARANTIA\n"
    + "Conforme exigido em edital: {{SLA}}"

  const DefaultClassification := "Solução Tecnológica"
  const ExportPrefix := "Proposta_VSDATA_"
  const ExportSuffix := ".doc"
  const TitlePrefix := "Proposta Final - "

  /** The field `updateItem` rewrites and its new value; the editor never rewrites `id`. */
  datatype ItemEdit =
    | SetDescription(text: string)
    | SetQuantity(count: int)
    | SetUnit(text: string)
    | SetBrand(text: string)
    | SetModel(text: string)
    | SetUnitPrice(amount: int)

  /** `{ ...item, [field]: value }`. */
  function Apply(item: ProposalItem, edit: ItemEdit): (r: ProposalItem)
    ensures r.id == item.id
    ensures edit.SetDescription? ==> r == item.(description := edit.text)
    ensures edit.SetQuantity? ==> r == item.(quantity := edit.count)
    ensures edit.SetUnit? ==> r == item.(unit := edit.text)
    ensures edit.SetBrand? ==> r == item.(brand := edit.text)
    ensures edit.SetModel? ==> r == item.(model := edit.text)
    ensures edit.SetUnitPrice? ==> r == item.(unitPrice := edit.amount)
  {
    match edit
    case SetDescription(t) => item.(description := t)
    case SetQuantity(n) => item.(quantity := n)
    case SetUnit(t) => item.(unit := t)
    case SetBrand(t) => item.(brand := t)
    case SetModel(t) => item.(model := t)
    case SetUnitPrice(n) => item.(unitPrice := n)
  }

  /** The item `addItem` appends: one unit, no brand or model, price zero. */
  function BlankItem(id: string): ProposalItem
  {
    ProposalItem(id, "", 1, "UN", "", "", 0)
  }

  /** The list the screen opens with: a single item named after the classification. */
  function InitialItems(classification: Option<string>): (r: seq<ProposalItem>)
    ensures |r| == 1 && r[0].id == "1"
    ensures r[0].description == "Item 01 - " + OptOr(classification, DefaultClassification)
    ensures r[0].quantity == 1 && r[0].unit == "UN" && r[0].unitPrice == 0 && r[0].brand == "" && r[0].model == ""
  {
    [ProposalItem("1", "Item 01 - " + OptOr(classification, DefaultClassification), 1, "UN", "", "", 0)]
  }

  function ItemId(item: ProposalItem): string { item.id }

  predicate HasItemId(items: seq<ProposalItem>, id: string)
  {
    exists i :: 0 <= i < |items| && items[i].id == id
  }

  predicate ItemIdsDistinct(items: seq<ProposalItem>)
  {
    Seqs.DistinctBy(items, ItemId)
  }

  /** `items.map(item => item.id === id ? { ...item, [field]: value } : item)`. */
  function Edited(items: seq<ProposalItem>, id: string, edit: ItemEdit): (r: seq<ProposalItem>)
    ensures |r| == |items|
    ensures forall i :: 0 <= i < |items| ==> r[i].id == items[i].id
    ensures forall i :: 0 <= i < |items| && items[i].id != id ==> r[i] == items[i]
    ensures forall i :: 0 <= i < |items| && items[i].id == id ==> r[i] == Apply(items[i], edit)
  {
    seq(|items|, i requires 0 <= i < |items| => if items[i].id == id then Apply(items[i], edit) else items[i])
  }

  function KeepOtherItems(id: string): ProposalItem -> bool
  {
    (item: ProposalItem) => item.id != id
  }

  /** `removeItem`: ignored while a single item remains, otherwise drops the items with that id. */
  function Removed(items: seq<ProposalItem>, id: string): (r: seq<ProposalItem>)
    ensures |items| <= 1 ==> r == items
    ensures |items| > 1 ==> !HasItemId(r, id)
    ensures |items| > 1 ==> forall i :: 0 <= i < |items| && items[i].id != id ==> items[i] in r
    ensures forall i :: 0 <= i < |r| ==> r[i] in items
  {
    if |items| > 1 then Seqs.Filter(items, KeepOtherItems(id)) else items
  }

  /** Removal keeps the order of the remaining items: on a list of two or more it distributes
      over concatenation, removing from each part on its own. */
  lemma RemovedKeepsOrder(a: seq<ProposalItem>, b: seq<ProposalItem>, id: string)
    requires |a + b| > 1
    ensures Removed(a + b, id) == Seqs.Filter(a, KeepOtherItems(id)) + Seqs.Filter(b, KeepOtherItems(id))
  {
    Seqs.FilterConcat(a, b, KeepOtherItems(id));
  }

  /** With distinct ids, removal can never empty the list, and ids stay distinct. */
  lemma RemovedNeverEmpty(items: seq<ProposalItem>, id: string)
    requires |items| >= 1 && ItemIdsDistinct(items)
    ensures |Removed(items, id)| >= 1 && ItemIdsDistinct(Removed(items, id))
  {
    if |items| > 1 {
      Seqs.FilterKeepsDistinct(items, KeepOtherItems(id), ItemId);
      var k := if items[0].id != id then 0 else 1;
      assert items[k] in Removed(items, id);
    }
  }

  /** The item list of the screen and the template being edited. */
  class ProposalEditor {
    var items: seq<ProposalItem>
    var localTemplate: string

    ghost predicate Valid()
      reads this
    {
      |items| >= 1 && ItemIdsDistinct(items)
    }

    /** Mounting the screen for a project. */
    constructor (doc: Project)
      ensures Valid()
      ensures items == InitialItems(doc.analysis.classification)
      ensures localTemplate == InitialLocalTemplate(doc.proposalTemplate)
    {
      items := InitialItems(doc.analysis.classification);
      localTemplate := InitialLocalTemplate(doc.proposalTemplate);
    }

    /** `addItem`, with the fresh id as a parameter. */
    method AddItem(freshId: string)
      requires Valid() && !HasItemId(items, freshId)
      modifies this`items
      ensures Valid()
      ensures items == old(items) + [BlankItem(freshId)]
    {
      items := items + [BlankItem(freshId)];
    }

    /** `updateItem`: length, order and ids are kept. */
    method UpdateItem(id: string, edit: ItemEdit)
      requires Valid()
      modifies this`items
      ensures Valid()
      ensures items == Edited(old(items), id, edit)
    {
      items := Edited(items, id, edit);
    }

    /** `removeItem`: the list never becomes empty. */
    method RemoveItem(id: string)
      requires Valid()
      modifies this`items
      ensures Valid()
      ensures items == Removed(old(items), id)
    {
      RemovedNeverEmpty(items, id);
      items := Removed(items, id);
    }

    /** The template editor's text area, its reset button and a loaded template file. */
    method SetLocalTemplate(template: string)
      modifies this`localTemplate
      ensures localTemplate == template
    {
      localTemplate := template;
    }
  }

  /** `companyStr`. */
  function CompanyText(c: CompanyInfo): (r: string)
    ensures |r| >= |"Nome: "| + |c.name| && r[..|"Nome: "| + |c.name|] == "Nome: " + c.name
    ensures |r| >= |", E-mail: "| + |c.email| && r[|r| - |", E-mail: "| - |c.email|..] == ", E-mail: " + c.email
    ensures var head, tail := "Nome: " + c.name, ", E-mail: " + c.email;
      |r| >= |head| + |tail| && r[|head|..|r| - |tail|] == ", CNPJ: " + c.cnpj + ", Endereço: " + c.address
  {
    var head, tail := "Nome: " + c.name, ", E-mail: " + c.email;
    var middle := ", CNPJ: " + c.cnpj + ", Endereço: " + c.address;
    Framed(head, middle, tail);
    head + middle + tail
  }

  /** One line of `itemsStr`. */
  function ItemLine(item: ProposalItem): (r: string)
    ensures |r| >= 2 + |item.description| && r[..2 + |item.description|] == "- " + item.description
    ensures var tail := " | Preço: R$ " + IntToString(item.unitPrice);
      |r| >= |tail| && r[|r| - |tail|..] == tail
    ensures var head, tail := "- " + item.description, " | Preço: R$ " + IntToString(item.unitPrice);
      |r| >= |head| + |tail|
      && r[|head|..|r| - |tail|] == " | Qtd: " + IntToString(item.quantity) + " | Marca/Modelo: " + item.brand + " " + item.model
  {
    var head, tail := "- " + item.description, " | Preço: R$ " + IntToString(item.unitPrice);
    var middle := " | Qtd: " + IntToString(item.quantity) + " | Marca/Modelo: " + item.brand + " " + item.model;
    Framed(head, middle, tail);
    head + middle + tail
  }

  lemma Framed(head: string, middle: string, tail: string)
    ensures var r := head + middle + tail;
      r[..|head|] == head && r[|r| - |tail|..] == tail && r[|head|..|r| - |tail|] == middle
  {
  }

  function ItemLines(items: seq<ProposalItem>): (r: seq<string>)
    ensures |r| == |items| && forall i :: 0 <= i < |items| ==> r[i] == ItemLine(items[i])
  {
    seq(|items|, i requires 0 <= i < |items| => ItemLine(items[i]))
  }

  /** `itemsStr`: the item lines joined by line breaks. */
  function ItemsText(items: seq<ProposalItem>): (r: string)
    ensures items == [] ==> r == ""
    ensures |items| == 1 ==> r == ItemLine(items[0])
    ensures |items| >= 1 ==> |r| >= |ItemLine(items[0])| && r[..|ItemLine(items[0])|] == ItemLine(items[0])
  {
    Join(ItemLines(items), "\n")
  }

  /** The text fields of an item come from single-line inputs. */
  predicate SingleLine(item: ProposalItem)
  {
    '\n' !in item.description && '\n' !in item.brand && '\n' !in item.model
  }

  lemma ItemLineIsOneLine(item: ProposalItem)
    requires SingleLine(item)
    ensures '\n' !in ItemLine(item)
  {
    NumberIsOneLine(item.quantity);
    NumberIsOneLine(item.unitPrice);
    var head, tail := "- " + item.description, " | Preço: R$ " + IntToString(item.unitPrice);
    var middle := " | Qtd: " + IntToString(item.quantity) + " | Marca/Modelo: " + item.brand + " " + item.model;
    NoNewlineIn("- ", item.description);
    NoNewlineIn(" | Preço: R$ ", IntToString(item.unitPrice));
    NoNewlineIn(" | Qtd: ", IntToString(item.quantity));
    NoNewlineIn(" | Qtd: " + IntToString(item.quantity), " | Marca/Modelo: ");
    NoNewlineIn(" | Qtd: " + IntToString(item.quantity) + " | Marca/Modelo: ", item.brand);
    NoNewlineIn(" | Qtd: " + IntToString(item.quantity) + " | Marca/Modelo: " + item.brand, " ");
    NoNewlineIn(" | Qtd: " + IntToString(item.quantity) + " | Marca/Modelo: " + item.brand + " ", item.model);
    NoNewlineIn(head, middle);
    NoNewlineIn(head + middle, tail);
  }

  lemma NoNewlineIn(a: string, b: string)
    requires '\n' !in a && '\n' !in b
    ensures '\n' !in a + b
  {
  }

  lemma NumberIsOneLine(n: int)
    ensures '\n' !in IntToString(n)
  {
    var r := IntToString(n);
    assert forall i :: 0 <= i < |r| ==> r[i] != '\n';
  }

  /** `itemsStr` holds exactly one line per item, in item order. */
  lemma ItemsTextHasOneLinePerItem(items: seq<ProposalItem>)
    requires |items| >= 1
    requires forall i :: 0 <= i < |items| ==> SingleLine(items[i])
    ensures SplitOn(ItemsText(items), '\n') == ItemLines(items)
  {
    var lines := ItemLines(items);
    forall k | 0 <= k < |lines| ensures '\n' !in lines[k] {
      ItemLineIsOneLine(items[k]);
    }
    SplitJoin(lines, '\n');
  }

  /** The template sent to the generator: the project's own when set, else the local one. */
  function TemplateSent(docTemplate: Option<string>, localTemplate: string): (r: string)
    ensures docTemplate.Some? && docTemplate.value != "" ==> r == docTemplate.value
    ensures docTemplate.None? || docTemplate.value == "" ==> r == localTemplate
  {
    OptOr(docTemplate, localTemplate)
  }

  /** The template editor starts from the project's template, or the default one. */
  function InitialLocalTemplate(docTemplate: Option<string>): (r: string)
    ensures r != ""
    ensures docTemplate.Some? && docTemplate.value != "" ==> r == docTemplate.value
    ensures docTemplate.None? || docTemplate.value == "" ==> r == DefaultTemplate
  {
    OptOr(docTemplate, DefaultTemplate)
  }

  /** `hasCustomTemplate`: a stored template that is not the default one. */
  function HasCustomTemplate(docTemplate: Option<string>): (r: bool)
    ensures r ==> docTemplate.Some? && forall local :: TemplateSent(docTemplate, local) == docTemplate.value
    ensures !r ==> InitialLocalTemplate(docTemplate) == DefaultTemplate
    ensures docTemplate == Some(DefaultTemplate) ==> !r
  {
    docTemplate.Some? && docTemplate.value != "" && docTemplate.value != DefaultTemplate
  }

  /** Until the template is edited, the generator gets the custom template when the badge says
      there is one, and the default template otherwise. */
  lemma TemplateAtMount(docTemplate: Option<string>)
    ensures HasCustomTemplate(docTemplate) ==> TemplateSent(docTemplate, InitialLocalTemplate(docTemplate)) == docTemplate.value
    ensures !HasCustomTemplate(docTemplate) ==> TemplateSent(docTemplate, InitialLocalTemplate(docTemplate)) == DefaultTemplate
  {
  }

  /** The name part of the export file: the company name with white-space runs turned into
      underscores, or "Final" when that is empty. */
  function ExportStem(companyName: string): (r: string)
    ensures r != "" && forall i :: 0 <= i < |r| ==> !IsSpace(r[i])
    ensures companyName == "" ==> r == "Final"
    ensures companyName != "" ==> r == ReplaceSpaceRuns(companyName)
  {
    Or(ReplaceSpaceRuns(companyName), "Final")
  }

  /** The download name of the Word export. */
  function ExportFilename(companyName: string): (r: string)
    ensures |r| > |ExportPrefix| + |ExportSuffix|
    ensures r[..|ExportPrefix|] == ExportPrefix && r[|r| - |ExportSuffix|..] == ExportSuffix
    ensures r[|ExportPrefix|..|r| - |ExportSuffix|] == ExportStem(companyName)
  {
    var stem := ExportStem(companyName);
    var r := ExportPrefix + stem + ExportSuffix;
    assert r[|ExportPrefix|..|r| - |ExportSuffix|] == stem;
    r
  }

  /** The title under which the generated proposal is archived. */
  function ProposalTitle(companyName: string): (r: string)
    ensures |r| > |TitlePrefix| && r[..|TitlePrefix|] == TitlePrefix
    ensures r[|TitlePrefix|..] == Or(companyName, "Empresa") && r[|TitlePrefix|..] != ""
  {
    TitlePrefix + Or(companyName, "Empresa")
  }

  /** The four inputs `handleGenerate` passes to the generator. */
  datatype Request = Request(context: string, company: string, items: string, template: string)

  function BuildRequest(doc: Project, company: CompanyInfo, items: seq<ProposalItem>, localTemplate: string): (r: Request)
    ensures r.context == OptOr(doc.fullText, "")
    ensures r.company == CompanyText(company) && r.items == ItemsText(items)
    ensures r.template == TemplateSent(doc.proposalTemplate, localTemplate)
  {
    Request(OptOr(doc.fullText, ""), CompanyText(company), ItemsText(items), TemplateSent(doc.proposalTemplate, localTemplate))
  }

  /** What `onSaveProposal` receives once the generator answers: the title and the reply
      (an empty reply when none came back). */
  function SavedProposal(company: CompanyInfo, reply: Option<string>): (r: (string, string))
    ensures r.0 == ProposalTitle(company.name)
    ensures r.1 == OptOr(reply, "")
  {
    (ProposalTitle(company.name), OptOr(reply, ""))
  }
}
