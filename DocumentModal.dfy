/** The document-entry dialog: a list of document rows edited by id, with
    rows appended under the id `length + 1`. Ids are NOT guaranteed unique:
    `DuplicateIdAfterDeleteThenAdd` shows two rows sharing one. */
module DocumentModal {
  import opened Seqs
  import opened Wrappers
  import opened Text

  datatype Document = Document(id: string, naziv: string, opis: string, napomena: string)

  /** The keys of a document (`keyof Document`), the id included. */
  datatype Field = Id | Naziv | Opis | Napomena

  function Get(d: Document, f: Field): string {
    match f
    case Id => d.id
    case Naziv => d.naziv
    case Opis => d.opis
    case Napomena => d.napomena
  }

  /** `{ ...doc, [field]: value }`: `field` becomes `value`, every other key keeps its value. */
  function With(d: Document, f: Field, value: string): (r: Document)
    ensures Get(r, f) == value
    ensures forall g :: g != f ==> Get(r, g) == Get(d, g)
  {
    match f
    case Id => d.(id := value)
    case Naziv => d.(naziv := value)
    case Opis => d.(opis := value)
    case Napomena => d.(napomena := value)
  }

  /** A row with the given id and every text field empty. */
  function Blank(id: string): Document {
    Document(id, "", "", "")
  }

  const InitialDocuments: seq<Document> := [Blank("1")]

  /** `handleInputChange`: every row whose id matches gets `field := value`;
      all other rows, and all other fields, are unchanged. */
  function UpdateField(docs: seq<Document>, id: string, f: Field, value: string): (r: seq<Document>)
    ensures |r| == |docs|
    ensures forall i :: 0 <= i < |r| && docs[i].id == id ==>
      Get(r[i], f) == value && forall g :: g != f ==> Get(r[i], g) == Get(docs[i], g)
    ensures forall i :: 0 <= i < |r| && docs[i].id != id ==> r[i] == docs[i]
  {
    Map(docs, (d: Document) => if d.id == id then With(d, f, value) else d)
  }

  /** `handleAddDocument`: the old rows, then one blank row whose id is the
      decimal rendering of the new length. */
  function AddBlank(docs: seq<Document>): (r: seq<Document>)
    ensures |r| == |docs| + 1 && r[..|docs|] == docs
    ensures var last := r[|docs|]; last.naziv == last.opis == last.napomena == ""
    ensures r[|docs|].id == NatToString(|docs| + 1)
    ensures ParseDecimal(r[|docs|].id) == Some(|docs| + 1)
  {
    ParseNatToString(|docs| + 1);
    docs + [Blank(NatToString(|docs| + 1))]
  }

  predicate HasOtherId(id: string, d: Document) { d.id != id }

  /** `handleDeleteDocument`: every row with the id is gone; the others keep their order. */
  function DeleteById(docs: seq<Document>, id: string): (r: seq<Document>)
    ensures forall d :: d in r ==> d in docs && d.id != id
    ensures forall d :: d in docs && d.id != id ==> d in r
    ensures Subseq(r, docs)
    ensures |r| == Count(docs, (d: Document) => HasOtherId(id, d))
  {
    FilterIsSubseq(docs, (d: Document) => HasOtherId(id, d));
    Filter(docs, (d: Document) => HasOtherId(id, d))
  }

  /** Deleting an id no row has changes nothing. */
  lemma DeleteAbsentId(docs: seq<Document>, id: string)
    requires forall i :: 0 <= i < |docs| ==> docs[i].id != id
    ensures DeleteById(docs, id) == docs
  {
    FilterKeepsAll(docs, (d: Document) => HasOtherId(id, d));
  }

  predicate UniqueIds(docs: seq<Document>) {
    forall i, j :: 0 <= i < j < |docs| ==> docs[i].id != docs[j].id
  }

  /** Rows numbered "1", "2", ... in order: the shape produced by adds alone. */
  predicate SequentialIds(docs: seq<Document>) {
    forall i :: 0 <= i < |docs| ==> docs[i].id == NatToString(i + 1)
  }

  /** Sequentially numbered rows have unique ids. */
  lemma SequentialIdsUnique(docs: seq<Document>)
    requires SequentialIds(docs)
    ensures UniqueIds(docs)
  {
    forall i, j | 0 <= i < j < |docs| ensures docs[i].id != docs[j].id {
      if docs[i].id == docs[j].id {
        NatToStringInjective(i + 1, j + 1);
      }
    }
  }

  /** Adding to a sequentially numbered list keeps it sequentially numbered,
      so as long as nothing is deleted, ids stay unique. */
  lemma AddKeepsSequentialIds(docs: seq<Document>)
    requires SequentialIds(docs)
    ensures SequentialIds(AddBlank(docs)) && UniqueIds(AddBlank(docs))
  {
    var r := AddBlank(docs);
    assert forall i :: 0 <= i < |docs| ==> r[i] == docs[i];
    SequentialIdsUnique(r);
  }

  /** Uniqueness is not an invariant: from two uniquely numbered rows, deleting
      row "1" and adding a row gives two rows with id "2". */
  lemma DuplicateIdAfterDeleteThenAdd()
    ensures var docs := AddBlank(InitialDocuments);
      UniqueIds(docs) && !UniqueIds(AddBlank(DeleteById(docs, "1")))
  {
    var docs := AddBlank(InitialDocuments);
    assert docs == [Blank("1"), Blank("2")];
    var kept := DeleteById(docs, "1");
    FilterUnique(docs, (d: Document) => HasOtherId("1", d), [Blank("2")]);
    assert kept == [Blank("2")];
    var after := AddBlank(kept);
    assert after[0].id == after[1].id == "2";
  }

  class DocumentModal {
    var documents: seq<Document>

    constructor ()
      ensures documents == InitialDocuments
    {
      documents := InitialDocuments;
    }

    method HandleInputChange(id: string, f: Field, value: string)
      modifies this
      ensures documents == UpdateField(old(documents), id, f, value)
    {
      documents := UpdateField(documents, id, f, value);
    }

    method HandleAddDocument()
      modifies this
      ensures documents == AddBlank(old(documents))
    {
      documents := AddBlank(documents);
    }

    method HandleDeleteDocument(id: string)
      modifies this
      ensures documents == DeleteById(old(documents), id)
    {
      documents := DeleteById(documents, id);
    }

    /** "Obriši": back to the single blank row the dialog starts with. */
    method HandleDelete()
      modifies this
      ensures documents == InitialDocuments && |documents| == 1 && documents[0] == Blank("1")
    {
      documents := InitialDocuments;
    }
  }
}
