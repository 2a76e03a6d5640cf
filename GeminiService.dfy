/** The statement import pipeline and the face-match result mapping
    (services/geminiService.ts). Rendering, base64 reading, the AI service
    and date parsing are outside the model: a file is its name, its MIME
    type and, for a PDF, whether each page got a 2D drawing context; the
    service's answer and the date parser are inputs. */
module GeminiService {
  import opened Types

  const ApiKeyMissing := "API_KEY environment variable not set"
  const NoValidFiles := "No valid files to process. Please upload supported file types (PDF, PNG, JPG)."
  const Malformed := "Could not process the statement. The AI response was not in the expected format."
  const Analyzing := "Analyzing with Gemini..."
  const Finalizing := "Finalizing results..."
  const Jpeg := "image/jpeg"
  const Pdf := "application/pdf"

  /** An uploaded file. `pageHasContext[i]` says whether page i+1 of a PDF
      got a 2D canvas context; its length is the page count. Unused for
      other types. */
  datatype StatementFile = StatementFile(name: string, mimeType: string, pageHasContext: seq<bool>)

  /** Where a payload's bytes come from: the whole file `file` read as
      base64, or page `page` (1-based) of file `file` rendered as JPEG. */
  datatype Origin = WholeFile(file: nat) | RenderedPage(file: nat, page: nat)

  /** One `inlineData` part of the request. */
  datatype Part = Part(mimeType: string, origin: Origin)

  /** One `onProgress(processedCount, total, status)` call. */
  datatype Progress = Progress(processed: nat, total: nat, message: string)

  /** What `generateContent` does: it rejects with a message, or it answers
      and the answer's `transactions` field is an array (`Some`) or the
      text does not parse or the field is missing or not an array (`None`). */
  datatype Reply = Rejected(message: string) | Answered(transactions: Option<seq<Transaction>>)

  /** A date parser: `new Date(s).getTime()`, `None` for NaN. */
  type DateKey = string -> Option<int>

  predicate IsImage(mimeType: string)
  {
    |mimeType| >= 6 && mimeType[..6] == "image/"
  }

  function Preparing(name: string): string
  {
    "Preparing " + name + "..."
  }

  // ----- pdfToGenerativeParts

  /** The parts of a PDF: one JPEG per page that has a context, in page
      order. */
  function PdfParts(k: nat, ctx: seq<bool>): (r: seq<Part>)
    ensures |r| <= |ctx|
    ensures forall i :: 0 <= i < |r| ==> r[i].mimeType == Jpeg && r[i].origin.RenderedPage? && r[i].origin.file == k
  {
    if ctx == [] then []
    else PdfParts(k, ctx[..|ctx| - 1]) + (if ctx[|ctx| - 1] then [Part(Jpeg, RenderedPage(k, |ctx|))] else [])
  }

  /** The page loop of `pdfToGenerativeParts`. */
  method PdfToGenerativeParts(k: nat, ctx: seq<bool>) returns (imageParts: seq<Part>)
    ensures imageParts == PdfParts(k, ctx)
  {
    var numPages := |ctx|;
    imageParts := [];
    for i := 1 to numPages + 1
      invariant imageParts == PdfParts(k, ctx[..i - 1])
    {
      assert ctx[..i] == ctx[..i - 1] + [ctx[i - 1]];
      assert ctx[..i][..i - 1] == ctx[..i - 1];
      var context := ctx[i - 1];
      if context {
        imageParts := imageParts + [Part(Jpeg, RenderedPage(k, i))];
      }
    }
    assert ctx[..numPages] == ctx;
  }

  /** A PDF gives at most one part per page, every part a JPEG of one of
      its own pages that had a context, pages in strictly increasing
      order, and every page with a context is there; so with a context on
      every page there are exactly as many parts as pages. */
  lemma {:induction false} PdfPartsShape(k: nat, ctx: seq<bool>)
    ensures |PdfParts(k, ctx)| <= |ctx|
    ensures forall i :: 0 <= i < |PdfParts(k, ctx)| ==>
      PdfParts(k, ctx)[i].mimeType == Jpeg && PdfParts(k, ctx)[i].origin.RenderedPage?
      && PdfParts(k, ctx)[i].origin.file == k
      && 1 <= PdfParts(k, ctx)[i].origin.page <= |ctx| && ctx[PdfParts(k, ctx)[i].origin.page - 1]
    ensures forall i, j :: 0 <= i < j < |PdfParts(k, ctx)| ==>
      PdfParts(k, ctx)[i].origin.page < PdfParts(k, ctx)[j].origin.page
    ensures forall p :: 1 <= p <= |ctx| && ctx[p - 1] ==> Part(Jpeg, RenderedPage(k, p)) in PdfParts(k, ctx)
    ensures (forall p :: 0 <= p < |ctx| ==> ctx[p]) ==> |PdfParts(k, ctx)| == |ctx|
  {
    PdfPartsPages(k, ctx);
    PdfPartsOrdered(k, ctx);
    PdfPartsComplete(k, ctx);
  }

  /** The last step of `PdfParts`: the parts of all pages but the last,
      then the last page's part if it has a context. */
  lemma PdfPartsLast(k: nat, ctx: seq<bool>)
    requires ctx != []
    ensures PdfParts(k, ctx) == PdfParts(k, ctx[..|ctx| - 1])
      + (if ctx[|ctx| - 1] then [Part(Jpeg, RenderedPage(k, |ctx|))] else [])
    ensures forall p :: 0 <= p < |ctx| - 1 ==> ctx[..|ctx| - 1][p] == ctx[p]
  {
  }

  /** Each part is a JPEG of a page of the file that had a context. */
  lemma {:induction false} PdfPartsPages(k: nat, ctx: seq<bool>)
    ensures |PdfParts(k, ctx)| <= |ctx|
    ensures forall i :: 0 <= i < |PdfParts(k, ctx)| ==>
      PdfParts(k, ctx)[i].mimeType == Jpeg && PdfParts(k, ctx)[i].origin.RenderedPage?
      && PdfParts(k, ctx)[i].origin.file == k
      && 1 <= PdfParts(k, ctx)[i].origin.page <= |ctx| && ctx[PdfParts(k, ctx)[i].origin.page - 1]
  {
    if ctx != [] {
      PdfPartsPages(k, ctx[..|ctx| - 1]);
      PdfPartsLast(k, ctx);
    }
  }

  /** The parts are in page order. */
  lemma {:induction false} PdfPartsOrdered(k: nat, ctx: seq<bool>)
    ensures forall i, j :: 0 <= i < j < |PdfParts(k, ctx)| ==>
      && PdfParts(k, ctx)[i].origin.RenderedPage? && PdfParts(k, ctx)[j].origin.RenderedPage?
      && PdfParts(k, ctx)[i].origin.page < PdfParts(k, ctx)[j].origin.page
  {
    if ctx != [] {
      var pre := ctx[..|ctx| - 1];
      PdfPartsOrdered(k, pre);
      PdfPartsPages(k, pre);
      PdfPartsLast(k, ctx);
      var a, r := PdfParts(k, pre), PdfParts(k, ctx);
      forall i, j | 0 <= i < j < |r|
        ensures r[i].origin.RenderedPage? && r[j].origin.RenderedPage? && r[i].origin.page < r[j].origin.page
      {
        if j < |a| {
          assert r[i] == a[i] && r[j] == a[j];
        } else {
          assert r[i] == a[i] && r[j] == Part(Jpeg, RenderedPage(k, |ctx|));
        }
      }
    } else {
      assert PdfParts(k, ctx) == [];
    }
  }

  /** Every page with a context has its part, and no page is dropped when
      they all have one. */
  lemma {:induction false} PdfPartsComplete(k: nat, ctx: seq<bool>)
    ensures forall p :: 1 <= p <= |ctx| && ctx[p - 1] ==> Part(Jpeg, RenderedPage(k, p)) in PdfParts(k, ctx)
    ensures (forall p :: 0 <= p < |ctx| ==> ctx[p]) ==> |PdfParts(k, ctx)| == |ctx|
  {
    if ctx != [] {
      var pre := ctx[..|ctx| - 1];
      PdfPartsComplete(k, pre);
      PdfPartsLast(k, ctx);
      forall p | 1 <= p <= |ctx| && ctx[p - 1]
        ensures Part(Jpeg, RenderedPage(k, p)) in PdfParts(k, ctx)
      {
        if p < |ctx| {
          assert pre[p - 1];
        }
      }
    }
  }

  // ----- analyzeStatements: the file loop

  /** What one file contributes: the pages of a PDF, the file itself for an
      `image/...` type, nothing for any other type. */
  function FileParts(k: nat, f: StatementFile): seq<Part>
  {
    if f.mimeType == Pdf then PdfParts(k, f.pageHasContext)
    else if IsImage(f.mimeType) then [Part(f.mimeType, WholeFile(k))]
    else []
  }

  /** An image contributes exactly one part with its own MIME type, a PDF
      at most one per page, and a type that is neither contributes none;
      every part names the file it came from. */
  lemma FilePartsByType(k: nat, f: StatementFile)
    ensures IsImage(f.mimeType) ==> FileParts(k, f) == [Part(f.mimeType, WholeFile(k))]
    ensures f.mimeType != Pdf && !IsImage(f.mimeType) ==> FileParts(k, f) == []
    ensures f.mimeType == Pdf ==> |FileParts(k, f)| <= |f.pageHasContext|
    ensures forall i :: 0 <= i < |FileParts(k, f)| ==> FileParts(k, f)[i].origin.file == k
  {
    if f.mimeType == Pdf {
      PdfPartsShape(k, f.pageHasContext);
      assert f.mimeType[0] == 'a';
    }
  }

  /** `allFileParts` after the loop: each file's parts in file order. */
  function CollectedParts(files: seq<StatementFile>): seq<Part>
  {
    if files == [] then []
    else CollectedParts(files[..|files| - 1]) + FileParts(|files| - 1, files[|files| - 1])
  }

  /** Every part comes from a file of the batch, and the parts come
      grouped by file, in file order. */
  lemma {:induction false} CollectedInFileOrder(files: seq<StatementFile>)
    ensures forall i :: 0 <= i < |CollectedParts(files)| ==> CollectedParts(files)[i].origin.file < |files|
    ensures forall i, j :: 0 <= i < j < |CollectedParts(files)| ==>
      CollectedParts(files)[i].origin.file <= CollectedParts(files)[j].origin.file
  {
    if files != [] {
      var n := |files|;
      var pre := files[..n - 1];
      CollectedInFileOrder(pre);
      var a, b := CollectedParts(pre), FileParts(n - 1, files[n - 1]);
      FilePartsByType(n - 1, files[n - 1]);
      assert CollectedParts(files) == a + b;
      AppendInFileOrder(a, b, n - 1);
    }
  }

  /** The parts of files before `n`, in file order, followed by parts of
      file `n`, are still in file order. */
  lemma AppendInFileOrder(a: seq<Part>, b: seq<Part>, n: nat)
    requires forall i :: 0 <= i < |a| ==> a[i].origin.file < n
    requires forall i, j :: 0 <= i < j < |a| ==> a[i].origin.file <= a[j].origin.file
    requires forall i :: 0 <= i < |b| ==> b[i].origin.file == n
    ensures forall i :: 0 <= i < |a + b| ==> (a + b)[i].origin.file < n + 1
    ensures forall i, j :: 0 <= i < j < |a + b| ==> (a + b)[i].origin.file <= (a + b)[j].origin.file
  {
    var r := a + b;
    forall i, j | 0 <= i < j < |r|
      ensures r[i].origin.file <= r[j].origin.file
    {
      if j < |a| {
        assert r[i] == a[i] && r[j] == a[j];
      } else if i < |a| {
        assert r[i] == a[i] && r[j] == b[j - |a|];
      } else {
        assert r[i] == b[i - |a|] && r[j] == b[j - |a|];
      }
    }
  }

  /** The batch has no part exactly when no file has one: only PDFs whose
      pages all lack a context (or that have no pages) and unsupported
      types. */
  lemma {:induction false} CollectedEmpty(files: seq<StatementFile>)
    ensures CollectedParts(files) == [] <==> forall k :: 0 <= k < |files| ==> FileParts(k, files[k]) == []
  {
    if files != [] {
      var n := |files|;
      var pre := files[..n - 1];
      var last := FileParts(n - 1, files[n - 1]);
      CollectedEmpty(pre);
      var c := CollectedParts(pre);
      assert CollectedParts(files) == c + last;
      if c == [] && last == [] {
        forall k | 0 <= k < n
          ensures FileParts(k, files[k]) == []
        {
          if k < n - 1 {
            assert pre[k] == files[k];
          }
        }
      } else if last == [] {
        var k :| 0 <= k < n - 1 && FileParts(k, pre[k]) != [];
        assert pre[k] == files[k];
      }
    }
  }

  /** The progress calls made while preparing the files: the k-th is
      `(k, n, "Preparing <name>...")`. */
  function PreparingCalls(files: seq<StatementFile>, total: nat): (r: seq<Progress>)
    ensures |r| == |files|
  {
    seq(|files|, k requires 0 <= k < |files| => Progress(k, total, Preparing(files[k].name)))
  }

  /** `processedCount` never decreases across the calls. */
  predicate Monotone(calls: seq<Progress>)
  {
    forall i, j :: 0 <= i < j < |calls| ==> calls[i].processed <= calls[j].processed
  }

  // ----- analyzeStatements: the date sort

  predicate AllDatesParse(ts: seq<Transaction>, key: DateKey)
  {
    forall i :: 0 <= i < |ts| ==> key(ts[i].Date).Some?
  }

  /** The time of a record's date, 0 for a date that does not parse. */
  function TimeOf(t: Transaction, key: DateKey): int
  {
    match key(t.Date)
    case Some(x) => x
    case None => 0
  }

  /** Oldest first. Meaningful when every date parses. */
  predicate SortedByDate(ts: seq<Transaction>, key: DateKey)
  {
    forall i, j :: 0 <= i < j < |ts| ==> TimeOf(ts[i], key) <= TimeOf(ts[j], key)
  }

  /** The comparator: `dateA - dateB`, or 0 when either date is NaN. Its
      sign orders two parsable dates by time; an unparsable date ties with
      every record. */
  function CompareDates(a: Transaction, b: Transaction, key: DateKey): (r: int)
    ensures key(a.Date).Some? && key(b.Date).Some? ==>
      (r < 0 <==> TimeOf(a, key) < TimeOf(b, key)) && (r > 0 <==> TimeOf(a, key) > TimeOf(b, key))
    ensures key(a.Date).None? || key(b.Date).None? ==> r == 0
  {
    match (key(a.Date), key(b.Date))
    case (Some(x), Some(y)) => x - y
    case _ => 0
  }

  /** Swapping the arguments negates the comparison. */
  lemma CompareAntisymmetric(a: Transaction, b: Transaction, key: DateKey)
    ensures CompareDates(a, b, key) == -CompareDates(b, a, key)
  {
  }

  /** The comparator is not a consistent order once a date fails to parse:
      a record with an unparsable date ties with both a later and an earlier
      one, which do not tie with each other. */
  lemma CompareNotTransitive(a: Transaction, b: Transaction, c: Transaction, key: DateKey)
    requires key(a.Date).Some? && key(b.Date).None? && key(c.Date).Some?
    requires TimeOf(a, key) > TimeOf(c, key)
    ensures CompareDates(a, b, key) == 0 && CompareDates(b, c, key) == 0
    ensures CompareDates(a, c, key) > 0
  {
  }

  /** `s[..i+1]` is in order except around position `j`, which is no later
      than anything after it: the state of one insertion step. */
  ghost predicate SortedBut(s: seq<Transaction>, key: DateKey, i: int, j: int)
  {
    && (forall p, q :: 0 <= p < q <= i < |s| && p != j && q != j ==> TimeOf(s[p], key) <= TimeOf(s[q], key))
    && (forall q :: 0 <= j < q <= i < |s| ==> TimeOf(s[j], key) <= TimeOf(s[q], key))
  }

  lemma StartInsert(s: seq<Transaction>, key: DateKey, i: int)
    requires 0 <= i < |s|
    requires SortedByDate(s[..i], key)
    ensures SortedBut(s, key, i, i)
  {
    forall p, q | 0 <= p < q <= i < |s| && p != i && q != i
      ensures TimeOf(s[p], key) <= TimeOf(s[q], key)
    {
      assert s[p] == s[..i][p] && s[q] == s[..i][q];
    }
  }

  /** Swapping the out-of-order pair at `j-1, j` moves the hole one place
      left and keeps every date and every record. */
  lemma SwapStep(s: seq<Transaction>, key: DateKey, i: int, j: int)
    requires 0 < j <= i < |s|
    requires SortedBut(s, key, i, j)
    requires TimeOf(s[j - 1], key) > TimeOf(s[j], key)
    ensures SortedBut(s[j - 1 := s[j]][j := s[j - 1]], key, i, j - 1)
  {
    var t := s[j - 1 := s[j]][j := s[j - 1]];
    forall q | j - 1 < q <= i
      ensures TimeOf(t[j - 1], key) <= TimeOf(t[q], key)
    {
      if q > j {
        assert TimeOf(s[j], key) <= TimeOf(s[q], key);
      }
    }
    forall p, q | 0 <= p < q <= i && p != j - 1 && q != j - 1
      ensures TimeOf(t[p], key) <= TimeOf(t[q], key)
    {
      if q == j {
        assert TimeOf(s[p], key) <= TimeOf(s[j - 1], key);
      } else if p == j {
        assert TimeOf(s[j - 1], key) <= TimeOf(s[q], key);
      }
    }
  }

  lemma EndInsert(s: seq<Transaction>, key: DateKey, i: int, j: int)
    requires 0 <= j <= i < |s|
    requires SortedBut(s, key, i, j)
    requires j > 0 ==> TimeOf(s[j - 1], key) <= TimeOf(s[j], key)
    ensures SortedByDate(s[..i + 1], key)
  {
    forall p, q | 0 <= p < q < i + 1
      ensures TimeOf(s[p], key) <= TimeOf(s[q], key)
    {
      if p == j {
      } else if q == j {
        assert TimeOf(s[p], key) <= TimeOf(s[j - 1], key);
      }
    }
  }

  lemma SwapParses(s: seq<Transaction>, key: DateKey, j: int)
    requires 0 < j < |s|
    requires AllDatesParse(s, key)
    ensures AllDatesParse(s[j - 1 := s[j]][j := s[j - 1]], key)
  {
  }

  /** Exchanges `a[j-1]` and `a[j]`. */
  method SwapAdjacent(a: array<Transaction>, j: int)
    requires 0 < j < a.Length
    modifies a
    ensures a[..] == old(a[..])[j - 1 := old(a[j])][j := old(a[j - 1])]
    ensures multiset(a[..]) == old(multiset(a[..]))
  {
    a[j - 1], a[j] := a[j], a[j - 1];
  }

  /** `Array.prototype.sort` with that comparator, as an insertion sort in
      place. The result is always a permutation; it is sorted when every
      date parses. */
  method SortByDate(a: array<Transaction>, key: DateKey)
    modifies a
    ensures multiset(a[..]) == old(multiset(a[..]))
    ensures AllDatesParse(old(a[..]), key) ==> AllDatesParse(a[..], key) && SortedByDate(a[..], key)
  {
    ghost var parses := AllDatesParse(a[..], key);
    var i := 0;
    while i < a.Length
      invariant 0 <= i <= a.Length
      invariant multiset(a[..]) == old(multiset(a[..]))
      invariant parses ==> AllDatesParse(a[..], key) && SortedByDate(a[..i], key)
    {
      var j := i;
      if parses {
        StartInsert(a[..], key, i);
      }
      while j > 0 && CompareDates(a[j - 1], a[j], key) > 0
        invariant 0 <= j <= i
        invariant multiset(a[..]) == old(multiset(a[..]))
        invariant parses ==> AllDatesParse(a[..], key) && SortedBut(a[..], key, i, j)
      {
        ghost var s := a[..];
        SwapAdjacent(a, j);
        if parses {
          SwapParses(s, key, j);
          SwapStep(s, key, i, j);
        }
        j := j - 1;
      }
      if parses {
        EndInsert(a[..], key, i, j);
      }
      i := i + 1;
    }
    assert a[..a.Length] == a[..];
  }

  // ----- analyzeStatements

  /** `analyzeStatements(files, onProgress)`. `calls` are the progress
      callbacks in order, `sent` the parts of the one model request (None
      when no request is made) and `result` what the promise settles to.
      Without an API key it fails before any progress call or conversion;
      with no part collected it fails after the preparing calls without a
      request; a rejected request propagates its error; a malformed answer
      becomes one fixed error; otherwise the result is the returned list
      sorted by date. */
  method AnalyzeStatements(apiKey: string, files: seq<StatementFile>, reply: Reply, key: DateKey)
    returns (calls: seq<Progress>, sent: Option<seq<Part>>, result: Result<seq<Transaction>>)
    ensures apiKey == "" ==> calls == [] && sent == None && result == Failure(ApiKeyMissing)
    ensures apiKey != "" && CollectedParts(files) == [] ==>
      calls == PreparingCalls(files, |files|) && sent == None && result == Failure(NoValidFiles)
    ensures apiKey != "" && CollectedParts(files) != [] ==>
      && sent == Some(CollectedParts(files))
      && calls == PreparingCalls(files, |files|) + [Progress(|files|, |files|, Analyzing)]
                  + (if reply.Rejected? then [] else [Progress(|files|, |files|, Finalizing)])
    ensures apiKey != "" && CollectedParts(files) != [] ==>
      (match reply
       case Rejected(m) => result == Failure(m)
       case Answered(None) => result == Failure(Malformed)
       case Answered(Some(ts)) =>
         && result.Success?
         && multiset(result.value) == multiset(ts)
         && (AllDatesParse(ts, key) ==> AllDatesParse(result.value, key) && SortedByDate(result.value, key)))
    ensures Monotone(calls)
    ensures forall i :: 0 <= i < |calls| ==> calls[i].processed <= calls[i].total == |files|
  {
    calls, sent := [], None;
    if apiKey == "" {
      return calls, sent, Failure(ApiKeyMissing);
    }
    var totalFiles := |files|;
    var allFileParts;
    calls, allFileParts := PrepareFiles(files);
    if |allFileParts| == 0 {
      ReportsInOrder(files, calls, []);
      return calls, sent, Failure(NoValidFiles);
    }
    var analyzing := Progress(totalFiles, totalFiles, Analyzing);
    calls := calls + [analyzing];
    sent := Some(allFileParts);
    match reply {
      case Rejected(m) =>
        ReportsInOrder(files, calls, [analyzing]);
        result := Failure(m);
      case Answered(transactions) =>
        var finalizing := Progress(totalFiles, totalFiles, Finalizing);
        calls := calls + [finalizing];
        ReportsInOrder(files, calls, [analyzing, finalizing]);
        result := ParseAnswer(transactions, key);
    }
  }

  /** The `try` after the request: an array is sorted and returned, and
      anything else becomes the format error. */
  method ParseAnswer(transactions: Option<seq<Transaction>>, key: DateKey) returns (result: Result<seq<Transaction>>)
    ensures transactions.None? ==> result == Failure(Malformed)
    ensures transactions.Some? ==>
      && result.Success?
      && multiset(result.value) == multiset(transactions.value)
      && (AllDatesParse(transactions.value, key) ==> AllDatesParse(result.value, key) && SortedByDate(result.value, key))
  {
    if transactions.Some? {
      var sorted := SortTransactions(transactions.value, key);
      result := Success(sorted);
    } else {
      result := Failure(Malformed);
    }
  }

  /** The file loop of `analyzeStatements`: one "Preparing" report per
      file, then that file's parts appended to the batch. */
  method PrepareFiles(files: seq<StatementFile>) returns (calls: seq<Progress>, allFileParts: seq<Part>)
    ensures calls == PreparingCalls(files, |files|)
    ensures allFileParts == CollectedParts(files)
  {
    calls, allFileParts := [], [];
    var totalFiles := |files|;
    var processedCount := 0;
    for k := 0 to totalFiles
      invariant processedCount == k
      invariant calls == PreparingCalls(files[..k], totalFiles)
      invariant allFileParts == CollectedParts(files[..k])
    {
      var statementFile := files[k];
      calls := calls + [Progress(processedCount, totalFiles, Preparing(statementFile.name))];
      if statementFile.mimeType == Pdf {
        var pdfParts := PdfToGenerativeParts(k, statementFile.pageHasContext);
        allFileParts := allFileParts + pdfParts;
      } else if IsImage(statementFile.mimeType) {
        allFileParts := allFileParts + [Part(statementFile.mimeType, WholeFile(k))];
      }
      processedCount := processedCount + 1;
      assert files[..k + 1][..k] == files[..k];
    }
    assert files[..totalFiles] == files;
  }

  /** The `.sort(...)` of the returned array, done in place on a copy. */
  method SortTransactions(ts: seq<Transaction>, key: DateKey) returns (sorted: seq<Transaction>)
    ensures multiset(sorted) == multiset(ts)
    ensures AllDatesParse(ts, key) ==> AllDatesParse(sorted, key) && SortedByDate(sorted, key)
  {
    var a := new Transaction[|ts|](i requires 0 <= i < |ts| => ts[i]);
    assert a[..] == ts;
    SortByDate(a, key);
    sorted := a[..];
  }

  /** The preparing reports followed by reports of all files processed
      never go back and never count past the number of files. */
  lemma ReportsInOrder(files: seq<StatementFile>, calls: seq<Progress>, tail: seq<Progress>)
    requires forall i :: 0 <= i < |tail| ==> tail[i].processed == tail[i].total == |files|
    requires calls == PreparingCalls(files, |files|) + tail
    ensures Monotone(calls)
    ensures forall i :: 0 <= i < |calls| ==> calls[i].processed <= calls[i].total == |files|
  {
  }

  // ----- verifyUserIdentity

  /** The `match` field of a parsed face-match answer. */
  datatype MatchField = Absent | BoolField(b: bool) | OtherField

  /** What the face-match request gives: a rejection, text that is not
      JSON, or a parsed object. */
  datatype FaceReply = FaceRejected | Unparsable | Parsed(matchField: MatchField)

  /** `verifyUserIdentity`: without an API key it throws; otherwise every
      failure is caught and only `match === true` means a match. */
  function VerifyUserIdentity(apiKey: string, reply: FaceReply): (r: Result<bool>)
    ensures r == Failure(ApiKeyMissing) <==> apiKey == ""
    ensures r == Success(true) <==> apiKey != "" && reply == Parsed(BoolField(true))
    ensures apiKey != "" ==> r.Success?
  {
    if apiKey == "" then Failure(ApiKeyMissing)
    else
      match reply
      case Parsed(BoolField(true)) => Success(true)
      case _ => Success(false)
  }
}
