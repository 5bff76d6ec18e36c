/**
 * The download session of the component: `downloadFile`, `cancelDownload`
 * and the Download/Cancel button states (App.js:12-15, 40-95, 130-145).
 */
module Download {
  import opened Wrappers
  import opened Text
  import Catalog

  /** The render service, fixed in the code (App.js:51). */
  const Endpoint: string := "https://thesis-downloader.onrender.com/create-pdf"

  /** The client-side timeout of the render request, in milliseconds (App.js:58). */
  const TimeoutMs: nat := 15 * 60 * 1000

  /** The error code the HTTP client reports when the timeout fires (App.js:78). */
  const TimeoutCode: string := "ECONNABORTED"

  /** The messages stored in `downloadError` (App.js:76, 79, 82). */
  const CancelledMessage: string := "Download cancelled by user."
  const TimeoutMessage: string := "Request timed out after 15 minutes"
  const FailureMessage: string := "Error downloading file"

  /** Number of trailing key characters kept in the saved file's name (App.js:45). */
  const NameLength: nat := 5
  const Extension: string := ".pdf"

  /** `item.key.slice(-5) + ".pdf"` (App.js:45). */
  function OutputFilename(key: string): (name: string)
    ensures |name| == Min(|key|, NameLength) + |Extension|
    ensures name[..|name| - |Extension|] == key[|key| - Min(|key|, NameLength)..]
    ensures name[|name| - |Extension|..] == Extension
    ensures |key| <= NameLength ==> name == key + Extension
  {
    SliceFrom(key, -(NameLength as int)) + Extension
  }

  /** Whatever precedes the last five characters of the key does not affect the name. */
  lemma OutputFilenameOfSuffix(prefix: string, tail: string)
    requires |tail| == NameLength
    ensures OutputFilename(prefix + tail) == tail + Extension
  {
    var key := prefix + tail;
    assert key[|key| - NameLength..] == tail;
  }

  /**
   * Two keys of at least five characters give the same file name exactly
   * when they end in the same five characters, so different documents can
   * collide.
   */
  lemma OutputFilenameCollides(k1: string, k2: string)
    requires |k1| >= NameLength && |k2| >= NameLength
    ensures OutputFilename(k1) == OutputFilename(k2) <==> k1[|k1| - NameLength..] == k2[|k2| - NameLength..]
  {
    var n1, n2 := OutputFilename(k1), OutputFilename(k2);
    if n1 == n2 {
      assert n1[..|n1| - |Extension|] == n2[..|n2| - |Extension|];
    }
  }

  /** The POST of one `downloadFile` call, with the controller whose signal it carries (App.js:44-61). */
  datatype Request = Request(
    endpoint: string,
    urlTemplate: string,
    outputFilename: string,
    timeoutMs: nat,
    controller: nat)

  /** What the HTTP client rejects with: whether it is a cancellation, and its error code. */
  datatype RequestError = RequestError(isCancel: bool, code: string)

  /** How the awaited POST settles. */
  datatype Outcome = Delivered | Rejected(error: RequestError)

  datatype ToastLevel = SuccessToast | WarnToast | ErrorToast

  /** A notification shown to the user. */
  datatype Toast = Toast(level: ToastLevel, text: string)

  /** The state variables of the download session. */
  class Session {
    /** Key of the row whose download is in flight, or null. */
    var downloadLoading: Option<string>
    /** Message of the last failed download, or null. */
    var downloadError: Option<string>
    /** Set once the user cancelled the current download. */
    var isDownloadCancelled: bool
    /** The controller of the latest download, or null before the first one. */
    var abortController: Option<nat>
    /** Id of the next controller to be created; earlier ids are all smaller. */
    var nextController: nat
    /** Controllers whose `abort()` has been called. */
    var aborted: set<nat>

    /**
     * Controller ids are handed out in order; a raised cancelled flag
     * always belongs to an aborted controller; the error, when set, is one
     * of the three messages.
     */
    ghost predicate Valid()
      reads this
    {
      && (abortController.Some? ==> abortController.value < nextController)
      && (forall c :: c in aborted ==> c < nextController)
      && (isDownloadCancelled ==> abortController.Some? && abortController.value in aborted)
      && (downloadError.Some? ==> downloadError.value in {CancelledMessage, TimeoutMessage, FailureMessage})
    }

    /** The initial state: nothing loading, no error, not cancelled, no controller (App.js:12-15). */
    constructor ()
      ensures Valid()
      ensures downloadLoading == None && downloadError == None
      ensures !isDownloadCancelled && abortController == None
      ensures aborted == {}
    {
      downloadLoading := None;
      downloadError := None;
      isDownloadCancelled := false;
      abortController := None;
      nextController := 0;
      aborted := {};
    }

    /**
     * The synchronous start of `downloadFile(item)` up to the awaited POST
     * (App.js:41-61). It does not look at `downloadLoading`: a start while
     * another download is in flight is not refused here.
     */
    method Start(item: Catalog.Item) returns (req: Request)
      requires Valid()
      modifies this
      ensures Valid()
      ensures downloadLoading == Some(item.key)
      ensures downloadError == None && !isDownloadCancelled
      ensures abortController == Some(old(nextController)) && nextController == old(nextController) + 1
      ensures forall c :: c in aborted ==> c != abortController.value
      ensures old(abortController).Some? ==> old(abortController).value != abortController.value
      ensures aborted == old(aborted)
      ensures req.endpoint == Endpoint && req.timeoutMs == TimeoutMs
      ensures req.urlTemplate == item.url && req.outputFilename == OutputFilename(item.key)
      ensures Some(req.controller) == abortController
    {
      downloadLoading := Some(item.key);
      downloadError := None;
      isDownloadCancelled := false;
      var urlTemplate := item.url;
      var outputFilename := OutputFilename(item.key);
      var controller := nextController;
      nextController := nextController + 1;
      abortController := Some(controller);
      req := Request(Endpoint, urlTemplate, outputFilename, TimeoutMs, controller);
    }

    /**
     * The rest of `downloadFile` once the POST of `req` settles with
     * `outcome` (App.js:62-87): on delivery the file is saved under the
     * request's name; a rejection sets the message of its kind, tested in
     * the code's order (cancellation, then timeout code, then anything
     * else); `finally` clears the loading key on every path.
     */
    method Finish(req: Request, outcome: Outcome) returns (toast: Toast, saved: Option<string>)
      requires Valid()
      modifies this`downloadLoading, this`downloadError
      ensures Valid()
      ensures downloadLoading == None
      ensures outcome.Delivered? ==>
        && downloadError == old(downloadError)
        && saved == Some(req.outputFilename)
        && toast == Toast(SuccessToast, "Download completed successfully!")
      ensures outcome.Rejected? ==> saved == None
      ensures outcome.Rejected? && outcome.error.isCancel ==>
        && downloadError == Some(CancelledMessage)
        && toast == Toast(WarnToast, "Download cancelled by user.")
      ensures outcome.Rejected? && !outcome.error.isCancel && outcome.error.code == TimeoutCode ==>
        && downloadError == Some(TimeoutMessage)
        && toast == Toast(ErrorToast, "Request timed out after 15 minutes.")
      ensures outcome.Rejected? && !outcome.error.isCancel && outcome.error.code != TimeoutCode ==>
        && downloadError == Some(FailureMessage)
        && toast == Toast(ErrorToast, "Error downloading file.")
    {
      match outcome {
        case Delivered =>
          saved := Some(req.outputFilename);
          toast := Toast(SuccessToast, "Download completed successfully!");
        case Rejected(error) =>
          saved := None;
          if error.isCancel {
            downloadError := Some(CancelledMessage);
            toast := Toast(WarnToast, "Download cancelled by user.");
          } else if error.code == TimeoutCode {
            downloadError := Some(TimeoutMessage);
            toast := Toast(ErrorToast, "Request timed out after 15 minutes.");
          } else {
            downloadError := Some(FailureMessage);
            toast := Toast(ErrorToast, "Error downloading file.");
          }
      }
      downloadLoading := None;
    }

    /**
     * `cancelDownload()` (App.js:90-95): with no controller nothing happens;
     * otherwise the latest controller is aborted and the cancelled flag set.
     * The controller is never cleared, so this also acts after a download
     * has finished.
     */
    method Cancel()
      requires Valid()
      modifies this`aborted, this`isDownloadCancelled
      ensures Valid()
      ensures old(abortController).None? ==> aborted == old(aborted) && isDownloadCancelled == old(isDownloadCancelled)
      ensures old(abortController).Some? ==> aborted == old(aborted) + {abortController.value} && isDownloadCancelled
    {
      if abortController.Some? {
        aborted := aborted + {abortController.value};
        isDownloadCancelled := true;
      }
    }

    /** The Download button of row `rowKey` shows its spinner (App.js:133). */
    predicate LoadingOn(rowKey: string)
      reads this
    {
      downloadLoading == Some(rowKey)
    }

    /** The Download button of row `rowKey` is not disabled (App.js:134). */
    predicate DownloadEnabled(rowKey: string)
      reads this
    {
      !(downloadLoading.Some? && downloadLoading != Some(rowKey))
    }

    /**
     * A click on the Download button of row `rowKey` reaches `downloadFile`:
     * the button is not disabled (App.js:134) and not in its loading state
     * (App.js:133), in which the button component ignores clicks.
     */
    predicate DownloadClickable(rowKey: string)
      reads this
      ensures DownloadClickable(rowKey) <==> downloadLoading == None
    {
      DownloadEnabled(rowKey) && !LoadingOn(rowKey)
    }

    /** The Cancel button of row `rowKey` is not disabled (App.js:141). */
    predicate CancelEnabled(rowKey: string)
      reads this
    {
      !(downloadLoading != Some(rowKey) || isDownloadCancelled)
    }
  }

  /**
   * While the download of `k` is in flight, only row `k` shows the spinner
   * and has its Download button not disabled, and only row `k` may cancel,
   * until a cancel is issued.
   */
  lemma ButtonsWhileLoading(s: Session, k: string, row: string)
    requires s.downloadLoading == Some(k)
    ensures s.LoadingOn(row) <==> row == k
    ensures s.DownloadEnabled(row) <==> row == k
    ensures s.CancelEnabled(row) <==> row == k && !s.isDownloadCancelled
  {
  }

  /** With nothing in flight every row may start a download and none may cancel. */
  lemma ButtonsWhenIdle(s: Session, row: string)
    requires s.downloadLoading == None
    ensures s.DownloadEnabled(row) && !s.LoadingOn(row) && !s.CancelEnabled(row)
    ensures s.DownloadClickable(row)
  {
  }

  /**
   * Through the buttons, a download can start exactly when none is in
   * flight: the other rows are disabled and the loading row ignores clicks.
   */
  lemma DownloadClickableIffIdle(s: Session, row: string)
    ensures s.DownloadClickable(row) <==> s.downloadLoading == None
  {
  }

  /**
   * One cancelled download of `item`, seen from a fresh session: after the
   * cancel, no row may cancel again and no other row may download; once the
   * client rejects with a cancellation, the session is idle and shows the
   * cancellation message; a new start clears it under a new controller.
   */
  method CancelledThenRestarted(item: Catalog.Item, other: string, next: Catalog.Item)
    returns (cancelAgain: bool, otherCancel: bool, otherEnabled: bool, error: Option<string>, idle: bool,
             errorAfterRestart: Option<string>, sameController: bool)
    requires other != item.key
    ensures !cancelAgain && !otherCancel && !otherEnabled
    ensures error == Some(CancelledMessage) && idle
    ensures errorAfterRestart == None && !sameController
  {
    var s := new Session();
    var req := s.Start(item);
    s.Cancel();
    cancelAgain := s.CancelEnabled(item.key);
    otherCancel := s.CancelEnabled(other);
    otherEnabled := s.DownloadEnabled(other);
    var toast, saved := s.Finish(req, Rejected(RequestError(true, "ERR_CANCELED")));
    error := s.downloadError;
    idle := s.downloadLoading == None;
    var req2 := s.Start(next);
    errorAfterRestart := s.downloadError;
    sameController := req2.controller == req.controller;
  }

  /**
   * `downloadFile` itself does not refuse a second start (only the buttons
   * do, see `DownloadClickableIffIdle`): if it runs twice,
   * the first request's settling clears the loading key although the second
   * request is still in flight, and cancelling then aborts only the second
   * request's controller.
   */
  method OverlappingStarts(a: Catalog.Item, b: Catalog.Item)
    returns (loadingAfterFirst: Option<string>, abortedFirst: bool, abortedSecond: bool)
    ensures loadingAfterFirst == None
    ensures !abortedFirst && abortedSecond
  {
    var s := new Session();
    var first := s.Start(a);
    var second := s.Start(b);
    var toast, saved := s.Finish(first, Delivered);
    loadingAfterFirst := s.downloadLoading;
    s.Cancel();
    abortedFirst := first.controller in s.aborted;
    abortedSecond := second.controller in s.aborted;
  }

  /**
   * A completed download saves the file and leaves no error. Because the
   * controller is never cleared, a cancel after a completed
   * download still aborts the finished request's controller and raises the
   * cancelled flag, although no row offers a Cancel button then.
   */
  method CancelAfterCompletion(item: Catalog.Item, row: string)
    returns (cancelled: bool, cancelButton: bool, saved: Option<string>, error: Option<string>)
    ensures cancelled && !cancelButton
    ensures saved == Some(OutputFilename(item.key)) && error == None
  {
    var s := new Session();
    var req := s.Start(item);
    var toast;
    toast, saved := s.Finish(req, Delivered);
    error := s.downloadError;
    cancelButton := s.CancelEnabled(row);
    s.Cancel();
    cancelled := s.isDownloadCancelled;
  }
}
