/** The error reporter: a bounded buffer of error records mirrored to one storage key. */
module ErrorReporting {
  import opened Records
  import opened Storage
  import opened Collections
  import AppConfiguration

  const ErrorReportsKey: string := "error_reports"
  const UserIdKey: string := "user_id"
  const OneHour: int := 60 * 60 * 1000
  const OneDay: int := 24 * OneHour

  /** The fields a caller of reportError supplies */
  datatype ErrorData = ErrorData(kind: string, message: string, timestamp: int)

  /** getUserId: the stored 'user_id', or 'anonymous' when it is missing or empty */
  function UserId(items: map<string, Value>): (r: string)
    ensures r != []
    ensures UserIdKey in items && items[UserIdKey].Flag? && items[UserIdKey].text != [] ==> r == items[UserIdKey].text
  {
    if UserIdKey in items && items[UserIdKey].Flag? && items[UserIdKey].text != [] then items[UserIdKey].text
    else "anonymous"
  }

  /** The errors setupLocalStorage loads: the stored list as it is, without trimming */
  function StoredErrors(items: map<string, Value>): (r: seq<ErrorRecord>)
    ensures ErrorReportsKey in items && items[ErrorReportsKey].ErrorReports? ==> r == items[ErrorReportsKey].errors
    ensures ErrorReportsKey !in items ==> r == []
  {
    if ErrorReportsKey in items && items[ErrorReportsKey].ErrorReports? then items[ErrorReportsKey].errors else []
  }

  predicate IsUnsent(e: ErrorRecord) { !e.sent }

  /** Every record flagged as sent, nothing else changed */
  function MarkSent(errors: seq<ErrorRecord>): (r: seq<ErrorRecord>)
    ensures |r| == |errors|
    ensures forall k :: 0 <= k < |r| ==> r[k] == errors[k].(sent := true)
  {
    seq(|errors|, k requires 0 <= k < |errors| => errors[k].(sent := true))
  }

  /** After marking, a second batch would be empty */
  lemma MarkSentLeavesNothingUnsent(errors: seq<ErrorRecord>)
    ensures Filter(MarkSent(errors), IsUnsent) == []
  {
    FilterNone(MarkSent(errors), IsUnsent);
  }

  /** Marking a fully sent list changes nothing */
  lemma MarkSentOfSent(errors: seq<ErrorRecord>)
    requires Filter(errors, IsUnsent) == []
    ensures MarkSent(errors) == errors
  {
    assert forall k :: 0 <= k < |errors| ==> errors[k].sent;
  }

  function Kinds(errors: seq<ErrorRecord>): (r: seq<string>)
    ensures |r| == |errors| && forall k :: 0 <= k < |errors| ==> r[k] == errors[k].kind
  {
    seq(|errors|, k requires 0 <= k < |errors| => errors[k].kind)
  }

  /** The number of errors of one type */
  function CountOfKind(errors: seq<ErrorRecord>, kind: string): nat {
    |Filter(errors, (e: ErrorRecord) => e.kind == kind)|
  }

  /** The multiset of types counts each type as often as the errors of that type */
  lemma {:induction false} KindsCount(errors: seq<ErrorRecord>, kind: string)
    ensures multiset(Kinds(errors))[kind] == CountOfKind(errors, kind)
  {
    if errors != [] {
      KindsCount(errors[1..], kind);
      assert Kinds(errors) == [errors[0].kind] + Kinds(errors[1..]);
    }
  }

  /** Errors inside a window ending at now: `now - timestamp < window` */
  function CountWithin(errors: seq<ErrorRecord>, now: int, window: int): nat {
    |Filter(errors, (e: ErrorRecord) => now - e.timestamp < window)|
  }

  /** A longer window counts at least as many errors, and no window counts more than all */
  lemma WindowsNest(errors: seq<ErrorRecord>, now: int, shorter: int, longer: int)
    requires shorter <= longer
    ensures CountWithin(errors, now, shorter) <= CountWithin(errors, now, longer) <= |errors|
  {
    FilterMonotone(errors, (e: ErrorRecord) => now - e.timestamp < shorter, (e: ErrorRecord) => now - e.timestamp < longer);
  }

  datatype ErrorsByTime = ErrorsByTime(lastHour: nat, lastDay: nat, total: nat)

  datatype ErrorReport = ErrorReport(
    totalErrors: nat,
    errorsByType: multiset<string>,
    errorsByTime: ErrorsByTime,
    recentErrors: seq<ErrorRecord>,
    timestamp: int)

  /** A buffer bound: the `|| 100` fallback never yields 0 */
  type Capacity = n: nat | n >= 1 witness 1

  class ErrorReportingManager {
    const local: StorageArea
    /** `maxErrorReports || 100` */
    const maxErrors: Capacity
    var errors: seq<ErrorRecord>

    /** new ErrorReportingManager(): the stored list is loaded only when reporting is enabled */
    constructor (local: StorageArea, configuredMaxErrors: nat, enableErrorReporting: bool)
      ensures this.local == local
      ensures maxErrors == if configuredMaxErrors != 0 then configuredMaxErrors else 100
      ensures errors == if enableErrorReporting then StoredErrors(local.items) else []
    {
      this.local := local;
      maxErrors := if configuredMaxErrors != 0 then configuredMaxErrors else 100;
      errors := if enableErrorReporting then StoredErrors(local.items) else [];
    }

    method StoreErrorsLocally()
      modifies local
      ensures local.items == old(local.items)[ErrorReportsKey := ErrorReports(errors)]
    {
      local.SetItem(ErrorReportsKey, ErrorReports(errors));
    }

    /** reportError: append, keep the last maxErrors entries, store */
    method ReportError(data: ErrorData, id: string, sessionId: string, hostname: string)
      modifies this, local
      ensures var e := ErrorRecord(id, data.kind, data.message, data.timestamp, sessionId,
                                   UserId(old(local.items)), AppConfiguration.CurrentEnvironment(hostname), false);
        errors == KeepLast(old(errors) + [e], maxErrors)
      ensures |errors| <= maxErrors
      ensures errors != [] && errors[|errors| - 1].id == id && errors[|errors| - 1].timestamp == data.timestamp
      ensures local.items == old(local.items)[ErrorReportsKey := ErrorReports(errors)]
    {
      var error := ErrorRecord(id, data.kind, data.message, data.timestamp, sessionId,
                               UserId(local.items), AppConfiguration.CurrentEnvironment(hostname), false);
      errors := errors + [error];
      if |errors| > maxErrors {
        errors := errors[|errors| - maxErrors..];
      }
      StoreErrorsLocally();
    }

    /**
     * sendBatchErrors: the batch is every unsent error; when it is not empty,
     * each of them is marked sent and the list is stored again.
     */
    method SendBatchErrors() returns (batch: seq<ErrorRecord>)
      modifies this, local
      ensures batch == Filter(old(errors), IsUnsent)
      ensures batch == [] ==> errors == old(errors) && local.items == old(local.items)
      ensures batch != [] ==>
        errors == MarkSent(old(errors)) && local.items == old(local.items)[ErrorReportsKey := ErrorReports(errors)]
    {
      if |errors| == 0 {
        return [];
      }
      batch := Filter(errors, IsUnsent);
      if |batch| > 0 {
        var marked := errors;
        var i := 0;
        while i < |marked|
          invariant 0 <= i <= |marked| == |errors|
          invariant forall k :: 0 <= k < i ==> marked[k] == errors[k].(sent := true)
          invariant forall k :: i <= k < |marked| ==> marked[k] == errors[k]
        {
          if !marked[i].sent {
            marked := marked[i := marked[i].(sent := true)];
          }
          i := i + 1;
        }
        errors := marked;
        StoreErrorsLocally();
      }
    }

    /** getErrorsByType: the counts object is the multiset of the error types */
    method GetErrorsByType() returns (counts: multiset<string>)
      ensures counts == multiset(Kinds(errors))
      ensures |counts| == |errors|
      ensures forall kind :: counts[kind] == CountOfKind(errors, kind)
    {
      counts := multiset{};
      var i := 0;
      while i < |errors|
        invariant 0 <= i <= |errors|
        invariant counts == multiset(Kinds(errors[..i]))
      {
        assert Kinds(errors[..i + 1]) == Kinds(errors[..i]) + [errors[i].kind];
        counts := counts + multiset{errors[i].kind};
        i := i + 1;
      }
      assert errors[..i] == errors;
      forall kind ensures counts[kind] == CountOfKind(errors, kind) {
        KindsCount(errors, kind);
      }
    }

    /** getErrorsByTime */
    function GetErrorsByTime(now: int): (r: ErrorsByTime)
      reads this
      ensures r.lastHour <= r.lastDay <= r.total == |errors|
      ensures r.lastHour == CountWithin(errors, now, OneHour) && r.lastDay == CountWithin(errors, now, OneDay)
    {
      WindowsNest(errors, now, OneHour, OneDay);
      ErrorsByTime(CountWithin(errors, now, OneHour), CountWithin(errors, now, OneDay), |errors|)
    }

    /** getErrorReport */
    method GetErrorReport(now: int) returns (report: ErrorReport)
      ensures report.totalErrors == |errors|
      ensures report.errorsByType == multiset(Kinds(errors))
      ensures report.errorsByTime == GetErrorsByTime(now)
      ensures report.recentErrors == KeepLast(errors, 10) && |report.recentErrors| <= 10
      ensures report.timestamp == now
    {
      var byType := GetErrorsByType();
      report := ErrorReport(|errors|, byType, GetErrorsByTime(now), KeepLast(errors, 10), now);
    }

    /** clearErrorData */
    method ClearErrorData()
      modifies this, local
      ensures errors == []
      ensures local.items == old(local.items) - {ErrorReportsKey}
    {
      errors := [];
      local.RemoveItem(ErrorReportsKey);
    }
  }

  /** A full buffer evicts its oldest error: the buffer never exceeds its bound under repeated reports */
  lemma KeepLastBound(errors: seq<ErrorRecord>, e: ErrorRecord, maxErrors: nat)
    requires maxErrors >= 1 && |errors| <= maxErrors
    ensures var r := KeepLast(errors + [e], maxErrors);
      |r| <= maxErrors && r[|r| - 1] == e &&
      (|errors| < maxErrors ==> r == errors + [e]) &&
      (|errors| == maxErrors ==> r == errors[1..] + [e])
  {
  }
}
