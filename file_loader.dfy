/** The PDF folder loader (src/utils/file_loader.py): load the first file of
    the folder listing whose name ends in ".pdf" and tag every document it
    yields with that file name as its "source". The folder listing and the
    PDF parser are inputs. */
module FileLoader {
  import opened TextOps
  import opened Wrappers
  import opened Documents

  const PdfSuffix: string := ".pdf"

  /** The metadata key the loader overwrites. */
  const SourceKey: string := "source"

  /** os.path.join(folder, name) on POSIX for two components: an absolute
      name replaces the folder, and a separator is added only when the
      folder is not empty and does not already end in one. */
  function PathJoin(folder: string, name: string): string {
    if |name| > 0 && name[0] == '/' then name
    else if folder == "" || folder[|folder| - 1] == '/' then folder + name
    else folder + "/" + name
  }

  /** The joined path ends with the name. An absolute name is the whole
      path; otherwise the path starts with the folder, and a non-empty
      folder is separated from the name by a '/'. */
  lemma PathJoinShape(folder: string, name: string)
    ensures var r := PathJoin(folder, name);
      EndsWith(r, name) &&
      (|name| > 0 && name[0] == '/' ==> r == name) &&
      (!(|name| > 0 && name[0] == '/') ==>
        folder <= r && |r| <= |folder| + |name| + 1 &&
        (folder != "" ==> |r| > |name| && r[|r| - |name| - 1] == '/'))
  {
  }

  predicate IsPdfName(name: string) {
    EndsWith(name, PdfSuffix)
  }

  /** The parser is handed a path that ends in ".pdf" whenever the chosen
      name does. */
  lemma PathJoinKeepsPdf(folder: string, name: string)
    requires IsPdfName(name)
    ensures IsPdfName(PathJoin(folder, name))
  {
    var r := PathJoin(folder, name);
    PathJoinShape(folder, name);
    assert r[|r| - |PdfSuffix|..] == r[|r| - |name|..][|name| - |PdfSuffix|..];
  }

  /** The first position at or after `from` whose name ends in ".pdf". */
  function FirstPdfFrom(listing: seq<string>, from: nat): (r: Option<nat>)
    requires from <= |listing|
    ensures r.None? <==> forall j :: from <= j < |listing| ==> !IsPdfName(listing[j])
    ensures r.Some? ==>
      from <= r.value < |listing| && IsPdfName(listing[r.value]) &&
      forall j :: from <= j < r.value ==> !IsPdfName(listing[j])
    decreases |listing| - from
  {
    if from == |listing| then None
    else if IsPdfName(listing[from]) then Some(from)
    else FirstPdfFrom(listing, from + 1)
  }

  /** The position of the first ".pdf" name in listing order, if any. */
  function FirstPdf(listing: seq<string>): Option<nat> {
    FirstPdfFrom(listing, 0)
  }

  /** The document with its "source" metadata set to the file name. */
  function Tag(d: Doc, filename: string): Doc {
    d.(metadata := d.metadata[SourceKey := filename])
  }

  function Tagged(docs: seq<Doc>, filename: string): seq<Doc> {
    seq(|docs|, i requires 0 <= i < |docs| => Tag(docs[i], filename))
  }

  /** The documents load_pdf_from_folder returns for this listing and parser. */
  function LoadedDocs(folderPath: string, listing: seq<string>, loader: string -> seq<Doc>): seq<Doc> {
    match FirstPdf(listing)
    case None => []
    case Some(i) => Tagged(loader(PathJoin(folderPath, listing[i])), listing[i])
  }

  /** Tagging keeps the parser's documents, their number, order and text,
      sets "source" to the file name and leaves every other key alone. */
  lemma TaggedKeepsDocs(docs: seq<Doc>, filename: string)
    ensures |Tagged(docs, filename)| == |docs|
    ensures forall i :: 0 <= i < |docs| ==>
      var t := Tagged(docs, filename)[i];
      t.pageContent == docs[i].pageContent &&
      SourceKey in t.metadata && t.metadata[SourceKey] == filename &&
      t.metadata.Keys == docs[i].metadata.Keys + {SourceKey} &&
      forall k :: k in docs[i].metadata && k != SourceKey ==> t.metadata[k] == docs[i].metadata[k]
  {
  }

  /** Without a ".pdf" name in the listing nothing is loaded. */
  lemma NoPdfNoDocs(folderPath: string, listing: seq<string>, loader: string -> seq<Doc>)
    requires forall j :: 0 <= j < |listing| ==> !IsPdfName(listing[j])
    ensures LoadedDocs(folderPath, listing, loader) == []
  {
  }

  /** Only the first ".pdf" name matters: whatever follows it in the listing,
      later PDFs included, does not change the result. */
  lemma LaterEntriesIgnored(folderPath: string, listing: seq<string>, rest: seq<string>,
                            loader: string -> seq<Doc>)
    requires FirstPdf(listing).Some?
    ensures FirstPdf(listing + rest) == FirstPdf(listing)
    ensures LoadedDocs(folderPath, listing + rest, loader) == LoadedDocs(folderPath, listing, loader)
  {
    var i := FirstPdf(listing).value;
    var all := listing + rest;
    assert IsPdfName(all[i]);
    assert forall j :: 0 <= j < i ==> all[j] == listing[j] && !IsPdfName(all[j]);
  }

  /** load_pdf_from_folder(folder_path), with os.listdir(folder_path) given
      as `listing` and PyMuPDFLoader(path).load() as `loader`. */
  method LoadPdfFromFolder(folderPath: string, listing: seq<string>, loader: string -> seq<Doc>)
    returns (docs: seq<Doc>)
    ensures docs == LoadedDocs(folderPath, listing, loader)
  {
    for n := 0 to |listing|
      invariant forall j :: 0 <= j < n ==> !IsPdfName(listing[j])
    {
      var filename := listing[n];
      if EndsWith(filename, PdfSuffix) {
        var pdfPath := PathJoin(folderPath, filename);
        docs := loader(pdfPath);
        ghost var loaded := docs;
        for k := 0 to |docs|
          invariant |docs| == |loaded|
          invariant forall j :: 0 <= j < k ==> docs[j] == Tag(loaded[j], filename)
          invariant forall j :: k <= j < |docs| ==> docs[j] == loaded[j]
        {
          docs := docs[k := docs[k].(metadata := docs[k].metadata[SourceKey := filename])];
        }
        assert FirstPdfFrom(listing, n) == Some(n);
        return;
      }
    }
    return [];
  }
}
