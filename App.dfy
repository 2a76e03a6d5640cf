/** The import screen's state (App.tsx): the selected files, the imported
    transactions, the loading flag, the error message and the progress
    report, and the handlers that move between them. */
module App {
  import opened Types
  import GeminiService

  const NoFilesSelected := "Please select one or more files first."
  const UnknownError := "An unknown error occurred."
  const Starting := "Starting analysis..."

  /** How the awaited `analyzeStatements` settles: with the list, by
      throwing an `Error` with a message, or by throwing something else. */
  datatype Outcome = Resolved(transactions: seq<Transaction>) | ThrewError(message: string) | ThrewOther

  class App {
    var files: seq<GeminiService.StatementFile>
    var transactions: seq<Transaction>
    var isLoading: bool
    var error: Option<string>
    var progress: Option<GeminiService.Progress>

    /** While an analysis runs there is always a progress report, so the
        `Loader` drawn while `isLoading` (App.tsx:93-96) always has counts
        and a status message to show, never its fallbacks for a missing
        report. Every handler keeps it. */
    ghost predicate Valid()
      reads this
    {
      isLoading ==> progress.Some?
    }

    constructor ()
      ensures Valid()
      ensures files == [] && transactions == [] && !isLoading && error == None && progress == None
    {
      files, transactions, isLoading, error, progress := [], [], false, None, None;
    }

    /** `handleFileSelect`: the new selection replaces the old one, the
        error is cleared and the table emptied. */
    method HandleFileSelect(selected: seq<GeminiService.StatementFile>)
      requires Valid()
      modifies this`files, this`error, this`transactions
      ensures Valid()
      ensures files == selected && error == None && transactions == []
    {
      files := selected;
      error := None;
      transactions := [];
    }

    /** `handleProcessStatement` up to the `await`. With no file selected
        only the error is set. Otherwise loading starts, the error is
        cleared, the table emptied and the progress set to
        `(0, n, "Starting analysis...")`. */
    method StartProcessing() returns (started: bool)
      requires Valid()
      modifies this`isLoading, this`error, this`transactions, this`progress
      ensures Valid()
      ensures started <==> old(files) != []
      ensures !started ==>
        && error == Some(NoFilesSelected)
        && isLoading == old(isLoading) && transactions == old(transactions) && progress == old(progress)
      ensures started ==>
        && isLoading && error == None && transactions == []
        && progress == Some(GeminiService.Progress(0, |files|, Starting))
    {
      if |files| == 0 {
        error := Some(NoFilesSelected);
        return false;
      }
      isLoading := true;
      error := None;
      transactions := [];
      progress := Some(GeminiService.Progress(0, |files|, Starting));
      started := true;
    }

    /** `progressCallback`: the report becomes exactly its arguments. */
    method OnProgress(processedCount: nat, total: nat, status: string)
      requires Valid()
      modifies this`progress
      ensures Valid()
      ensures progress == Some(GeminiService.Progress(processedCount, total, status))
    {
      progress := Some(GeminiService.Progress(processedCount, total, status));
    }

    /** The `try`/`catch`/`finally` once the analysis settles: a list fills
        the table; an error shows its message, anything else thrown shows a
        fixed message; either way loading stops and the progress report is
        removed. */
    method Finish(outcome: Outcome)
      modifies this`transactions, this`error, this`isLoading, this`progress
      ensures Valid()
      ensures !isLoading && progress == None
      ensures outcome.Resolved? ==> transactions == outcome.transactions && error == old(error)
      ensures outcome.ThrewError? ==> error == Some(outcome.message) && transactions == old(transactions)
      ensures outcome.ThrewOther? ==> error == Some(UnknownError) && transactions == old(transactions)
    {
      match outcome {
        case Resolved(result) =>
          transactions := result;
        case ThrewError(message) =>
          error := Some(message);
        case ThrewOther =>
          error := Some(UnknownError);
      }
      isLoading := false;
      progress := None;
    }

    /** `handleReset`: no files, no transactions, no error, not loading. The
        progress report is left as it was. */
    method HandleReset()
      modifies this`files, this`transactions, this`error, this`isLoading
      ensures Valid()
      ensures files == [] && transactions == [] && error == None && !isLoading
      ensures progress == old(progress)
    {
      files := [];
      transactions := [];
      error := None;
      isLoading := false;
    }

    /** A whole `handleProcessStatement` with `analyzeStatements` run on
        the selected files and nothing else happening meanwhile. Its
        progress calls, each an `OnProgress`, are overwritten by the
        `finally`, so the outcome depends only on what the analysis
        settles to: the sorted list or the thrown message. */
    method ProcessStatement(apiKey: string, reply: GeminiService.Reply, key: GeminiService.DateKey)
      requires Valid()
      modifies this`isLoading, this`error, this`transactions, this`progress
      ensures Valid()
      ensures old(files) == [] ==>
        && error == Some(NoFilesSelected)
        && isLoading == old(isLoading) && transactions == old(transactions) && progress == old(progress)
      ensures old(files) != [] ==> !isLoading && progress == None
      ensures old(files) != [] && apiKey == "" ==>
        error == Some(GeminiService.ApiKeyMissing) && transactions == []
      ensures old(files) != [] && apiKey != "" && GeminiService.CollectedParts(files) == [] ==>
        error == Some(GeminiService.NoValidFiles) && transactions == []
      ensures old(files) != [] && apiKey != "" && GeminiService.CollectedParts(files) != []
              && reply.Rejected? ==>
        error == Some(reply.message) && transactions == []
      ensures old(files) != [] && apiKey != "" && GeminiService.CollectedParts(files) != []
              && reply == GeminiService.Answered(None) ==>
        error == Some(GeminiService.Malformed) && transactions == []
      ensures old(files) != [] && apiKey != "" && GeminiService.CollectedParts(files) != []
              && reply.Answered? && reply.transactions.Some? ==>
        && error == None
        && multiset(transactions) == multiset(reply.transactions.value)
        && (GeminiService.AllDatesParse(reply.transactions.value, key) ==>
              GeminiService.SortedByDate(transactions, key))
    {
      var started := StartProcessing();
      if !started {
        return;
      }
      var calls, sent, result := GeminiService.AnalyzeStatements(apiKey, files, reply, key);
      match result {
        case Success(ts) => Finish(Resolved(ts));
        case Failure(message) => Finish(ThrewError(message));
      }
    }
  }
}
