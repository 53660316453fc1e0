/**
 * The documents panel of a journal voucher: the upload area with its drag
 * highlight, the file-type label given to each uploaded file, and removal.
 * The ids, which the component makes from the clock and a random number, are
 * supplied by the caller; the size text is taken as already formatted.
 */
module JournalVoucherDocuments {
  import opened Wrappers
  import Text
  import Seqs

  datatype Document = Document(id: string, name: string, size: string, docType: string)

  /** A dropped or picked file: its name, its size as displayed, and its MIME type. */
  datatype File = File(name: string, size: string, mimeType: string)

  datatype Panel = Panel(documents: seq<Document>, dragOver: bool)

  function InitialPanel(): Panel {
    Panel([Document("1", "tax_ledger.pdf", "3.60 MB", "PDF"), Document("2", "tax_ledger.pdf", "3.60 MB", "PDF")], false)
  }

  /**
   * The type label: "PDF" when the MIME type mentions pdf, otherwise the part
   * after the first "/" (up to the next one) upper-cased, or "FILE" when that
   * part is missing or empty.
   */
  function TypeLabel(mime: string): (tag: string)
    ensures Text.Contains(mime, "pdf") ==> tag == "PDF"
    ensures !Text.Contains(mime, "pdf") ==>
      match Text.SecondSegment(mime, '/')
      case None => tag == "FILE"
      case Some(seg) => tag == (if seg == "" then "FILE" else Text.ToUpper(seg))
    ensures tag != ""
  {
    if Text.Contains(mime, "pdf") then "PDF"
    else
      match Text.SecondSegment(mime, '/')
      case None => "FILE"
      case Some(seg) =>
        var upper := Text.ToUpper(seg);
        if upper == "" then "FILE" else upper
  }

  /** A well-formed `type/subtype` that is not a pdf is labelled with its subtype in capitals. */
  lemma SubtypeLabel(kind: string, subtype: string)
    requires '/' !in kind && '/' !in subtype && subtype != ""
    requires !Text.Contains(kind + "/" + subtype, "pdf")
    ensures TypeLabel(kind + "/" + subtype) == Text.ToUpper(subtype)
  {
    Text.SecondSegmentOf(kind, '/', subtype, "");
  }

  /** Anything after a second "/" is ignored. */
  lemma ExtraSegmentsIgnored(kind: string, subtype: string, rest: string)
    requires '/' !in kind && '/' !in subtype
    requires !Text.Contains(kind + "/" + subtype + "/" + rest, "pdf")
    requires !Text.Contains(kind + "/" + subtype, "pdf")
    ensures TypeLabel(kind + "/" + subtype + "/" + rest) == TypeLabel(kind + "/" + subtype)
  {
    Text.SecondSegmentOf(kind, '/', subtype, rest);
  }

  /** The document made for one file. */
  function ToDocument(f: File, id: string): (d: Document)
    ensures d.id == id && d.name == f.name && d.size == f.size
    ensures d.docType == TypeLabel(f.mimeType)
  {
    Document(id, f.name, f.size, TypeLabel(f.mimeType))
  }

  /** One document per file, in file order, with the given ids. */
  function NewDocuments(files: seq<File>, ids: seq<string>): (docs: seq<Document>)
    requires |ids| == |files|
    ensures |docs| == |files|
    ensures forall i :: 0 <= i < |files| ==> docs[i] == ToDocument(files[i], ids[i])
    decreases |files|
  {
    if |files| == 0 then []
    else NewDocuments(files[..|files| - 1], ids[..|ids| - 1]) + [ToDocument(files[|files| - 1], ids[|ids| - 1])]
  }

  /** `handleDrop`: the highlight goes off and every dropped file is appended. */
  function Drop(p: Panel, files: seq<File>, ids: seq<string>): (r: Panel)
    requires |ids| == |files|
    ensures !r.dragOver
    ensures |r.documents| == |p.documents| + |files|
    ensures r.documents[..|p.documents|] == p.documents
    ensures forall i :: 0 <= i < |files| ==> r.documents[|p.documents| + i] == ToDocument(files[i], ids[i])
  {
    var docs := p.documents + NewDocuments(files, ids);
    assert docs[..|p.documents|] == p.documents;
    Panel(docs, false)
  }

  /** `handleFileSelect`: the picked files (none when the list is null) are appended; the highlight is untouched. */
  function FileSelect(p: Panel, files: Option<seq<File>>, ids: seq<string>): (r: Panel)
    requires |ids| == |files.GetOr([])|
    ensures r.dragOver == p.dragOver
    ensures files.None? ==> r == p
    ensures r.documents == p.documents + NewDocuments(files.GetOr([]), ids)
  {
    p.(documents := p.documents + NewDocuments(files.GetOr([]), ids))
  }

  /** Dropping files and picking the same files produce the same documents. */
  lemma DropAndSelectAgree(p: Panel, files: seq<File>, ids: seq<string>)
    requires |ids| == |files|
    ensures Drop(p, files, ids).documents == FileSelect(p, Some(files), ids).documents
  {
  }

  function IdIsNot(id: string): Document -> bool {
    (d: Document) => d.id != id
  }

  /** `handleRemoveDocument`: every document with the id goes, the others stay in order. */
  function Remove(p: Panel, id: string): (r: Panel)
    ensures r.dragOver == p.dragOver
    ensures forall i :: 0 <= i < |r.documents| ==> r.documents[i].id != id && r.documents[i] in p.documents
    ensures forall i :: 0 <= i < |p.documents| && p.documents[i].id != id ==> p.documents[i] in r.documents
  {
    p.(documents := Seqs.Filter(p.documents, IdIsNot(id)))
  }

  /** Removing a freshly added document undoes the upload. */
  lemma RemoveUndoesUpload(p: Panel, f: File, id: string)
    requires forall i :: 0 <= i < |p.documents| ==> p.documents[i].id != id
    ensures Remove(Drop(p, [f], [id]), id).documents == p.documents
  {
    var added := Drop(p, [f], [id]).documents;
    assert added == p.documents + [ToDocument(f, id)];
    Seqs.FilterConcat(p.documents, [ToDocument(f, id)], IdIsNot(id));
    Seqs.FilterKeepsAll(p.documents, IdIsNot(id));
    assert Seqs.Filter([ToDocument(f, id)], IdIsNot(id)) == [] by {
      assert [ToDocument(f, id)][..0] == [];
    }
  }

  function DragOver(p: Panel): (r: Panel)
    ensures r.dragOver && r.documents == p.documents
  {
    p.(dragOver := true)
  }

  function DragLeave(p: Panel): (r: Panel)
    ensures !r.dragOver && r.documents == p.documents
  {
    p.(dragOver := false)
  }

  /** Hovering and leaving without dropping restores the panel exactly. */
  lemma HoverThenLeave(p: Panel)
    requires !p.dragOver
    ensures DragLeave(DragOver(p)) == p
  {
  }

  /** A pdf MIME type is labelled "PDF". */
  lemma PdfLabel()
    ensures TypeLabel("application/pdf") == "PDF"
  {
    assert Text.OccursAt("application/pdf", "pdf", 12);
    Text.ContainsIff("application/pdf", "pdf");
  }

  /** Without a "/" there is no subtype, and the label falls back to "FILE". */
  lemma NoSubtypeLabel()
    ensures TypeLabel("text") == "FILE"
  {
    Text.MissingCharNotContained("text", "pdf", 1);
  }

  /** An empty subtype also falls back to "FILE". */
  lemma EmptySubtypeLabel()
    ensures TypeLabel("image/") == "FILE"
  {
    Text.MissingCharNotContained("image/", "pdf", 1);
    Text.SecondSegmentOf("image", '/', "", "");
    assert "image" + "/" + "" == "image/";
  }
}
