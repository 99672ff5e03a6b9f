/**
 * `GET /`: the PDF files of the static directory as `{ name, url }` entries.  The directory
 * listing is an input; only the `filter` and `map` over it are modelled.
 */
module PdfIndex {

  datatype FileEntry = FileEntry(name: string, url: string)

  /** `name.endsWith('.pdf')` (case-sensitive). */
  predicate IsPdf(name: string) {
    |name| >= 4 && name[|name| - 4..] == ".pdf"
  }

  /** `files.filter(file => file.endsWith('.pdf'))` */
  function FilterPdf(files: seq<string>): (r: seq<string>)
    ensures |r| <= |files|
    ensures forall f :: f in r ==> f in files && IsPdf(f)
  {
    if files == [] then []
    else (if IsPdf(files[0]) then [files[0]] else []) + FilterPdf(files[1..])
  }

  /** `.map(file => ({ name: file, url: `/${file}` }))` */
  function ToEntries(names: seq<string>): (r: seq<FileEntry>)
    ensures |r| == |names|
    ensures forall i :: 0 <= i < |names| ==> r[i] == FileEntry(names[i], "/" + names[i])
  {
    if names == [] then [] else [FileEntry(names[0], "/" + names[0])] + ToEntries(names[1..])
  }

  /**
   * The response body of `GET`: every entry is a PDF of the listing, linked at `/` followed
   * by its name, and there are no more entries than files.
   */
  function Listing(files: seq<string>): (r: seq<FileEntry>)
    ensures |r| <= |files|
    ensures forall e :: e in r ==> IsPdf(e.name) && e.name in files && e.url == "/" + e.name
  {
    ToEntries(FilterPdf(files))
  }

  function Names(entries: seq<FileEntry>): (r: seq<string>)
    ensures |r| == |entries|
    ensures forall i :: 0 <= i < |entries| ==> r[i] == entries[i].name
  {
    if entries == [] then [] else [entries[0].name] + Names(entries[1..])
  }

  /** `xs` is `ys` with some elements dropped, the rest kept in order. */
  predicate IsSubsequence(xs: seq<string>, ys: seq<string>)
    decreases |ys|
  {
    xs == [] || (ys != [] && ((xs[0] == ys[0] && IsSubsequence(xs[1..], ys[1..])) || IsSubsequence(xs, ys[1..])))
  }

  /** The names of the listing are exactly the filtered names. */
  lemma NamesOfEntries(names: seq<string>)
    ensures Names(ToEntries(names)) == names
  {
  }

  /** Each name occurs in the output as often as in the listing if it is a PDF, and never otherwise. */
  lemma {:induction false} FilterPdfCounts(files: seq<string>, name: string)
    ensures multiset(FilterPdf(files))[name] == if IsPdf(name) then multiset(files)[name] else 0
  {
    if files != [] {
      FilterPdfCounts(files[1..], name);
      assert files == [files[0]] + files[1..];
      assert multiset(files) == multiset{files[0]} + multiset(files[1..]);
    }
  }

  /** The filter keeps the relative order of the listing. */
  lemma {:induction false} FilterPdfIsSubsequence(files: seq<string>)
    ensures IsSubsequence(FilterPdf(files), files)
    decreases |files|
  {
    if files != [] {
      FilterPdfIsSubsequence(files[1..]);
      var rest := FilterPdf(files[1..]);
      if IsPdf(files[0]) {
        assert FilterPdf(files) == [files[0]] + rest;
        assert ([files[0]] + rest)[1..] == rest;
      } else {
        assert FilterPdf(files) == rest;
        SubsequenceDropHead(rest, files);
      }
    }
  }

  /** Dropping the head of the longer sequence keeps the relation when it was not used. */
  lemma SubsequenceDropHead(xs: seq<string>, ys: seq<string>)
    requires ys != [] && IsSubsequence(xs, ys[1..])
    ensures IsSubsequence(xs, ys)
  {
  }

  /** Order, multiplicity and the `.pdf` suffix, for the response body itself. */
  lemma ListingSpec(files: seq<string>, name: string)
    ensures IsSubsequence(Names(Listing(files)), files)
    ensures multiset(Names(Listing(files)))[name] == if IsPdf(name) then multiset(files)[name] else 0
  {
    NamesOfEntries(FilterPdf(files));
    FilterPdfIsSubsequence(files);
    FilterPdfCounts(files, name);
  }

  /** For a directory listing (no repeated names) every PDF appears exactly once. */
  lemma ListingOfDirectory(files: seq<string>, i: nat)
    requires forall j, k :: 0 <= j < k < |files| ==> files[j] != files[k]
    requires i < |files| && IsPdf(files[i])
    ensures multiset(Names(Listing(files)))[files[i]] == 1
  {
    ListingSpec(files, files[i]);
    DistinctCount(files, i);
  }

  lemma {:induction false} DistinctCount(files: seq<string>, i: nat)
    requires forall j, k :: 0 <= j < k < |files| ==> files[j] != files[k]
    requires i < |files|
    ensures multiset(files)[files[i]] == 1
  {
    assert files == files[..i] + [files[i]] + files[i + 1..];
    assert files[i] !in files[..i];
    assert files[i] !in files[i + 1..];
  }
}
