/** The analytics manager: per-name buffers of custom events, and the resource classification. */
module Analytics {
  import opened Options
  import opened Text
  import opened Collections

  /** How many events of one name are kept */
  const MaxEventsPerName: nat := 100

  /** The extension table of getResourceType */
  const ExtensionTypes: map<string, string> := map[
    "js" := "script",
    "css" := "stylesheet",
    "png" := "image",
    "jpg" := "image",
    "jpeg" := "image",
    "gif" := "image",
    "svg" := "image",
    "woff" := "font",
    "woff2" := "font",
    "ttf" := "font",
    "eot" := "font"]

  /** getResourceType: the lower-cased text after the last '.', looked up in the table, else 'other' */
  function ResourceType(url: string): (r: string)
    ensures r in ExtensionTypes.Values || r == "other"
    ensures r == "other" <==> ToLower(LastSegment(url, '.')) !in ExtensionTypes
  {
    var extension := ToLower(LastSegment(url, '.'));
    if extension in ExtensionTypes then ExtensionTypes[extension] else "other"
  }

  /** A URL ending in `.ext` is classified by ext alone, ignoring case and everything before the dot */
  lemma ResourceTypeOfExtension(base: string, ext: string)
    requires '.' !in ext
    ensures ResourceType(base + "." + ext) ==
      if ToLower(ext) in ExtensionTypes then ExtensionTypes[ToLower(ext)] else "other"
  {
    assert base + "." + ext == base + ['.'] + ext;
    LastSegmentAfterSeparator(base, '.', ext);
  }

  /** A URL with no dot at all is classified by the whole URL */
  lemma ResourceTypeWithoutDot(url: string)
    requires '.' !in url
    ensures ResourceType(url) == if ToLower(url) in ExtensionTypes then ExtensionTypes[ToLower(url)] else "other"
  {
    LastSegmentNoSeparator(url, '.');
  }

  /** A value inside an event's parameter object */
  datatype Param = Text(text: string) | Number(number: int) | Bool(flag: bool)

  type Parameters = map<string, Param>

  /** The page the browser is on, when an event is tracked */
  datatype Context = Context(now: int, url: string, userAgent: string)

  datatype Event = Event(name: string, parameters: Parameters, timestamp: int, url: string, userAgent: string)

  /** `{ ...fixed, ...data }`: the caller's data is spread last, so it overrides the fixed fields */
  function WithData(fixed: Parameters, data: Parameters): (r: Parameters)
    ensures r.Keys == fixed.Keys + data.Keys
    ensures forall k :: k in data ==> r[k] == data[k]
    ensures forall k :: k in fixed && k !in data ==> r[k] == fixed[k]
  {
    fixed + data
  }

  /** Push onto a buffer, then splice the front so that no more than 100 remain */
  function AppendCapped(events: seq<Event>, e: Event): (r: seq<Event>)
    ensures 1 <= |r| <= MaxEventsPerName && r[|r| - 1] == e
    ensures |events| < MaxEventsPerName ==> r == events + [e]
    ensures |events| >= MaxEventsPerName ==> r == events[|events| - (MaxEventsPerName - 1)..] + [e]
  {
    var all := events + [e];
    assert |events| >= MaxEventsPerName ==> all[|all| - MaxEventsPerName..] == events[|events| - (MaxEventsPerName - 1)..] + [e];
    KeepLast(all, MaxEventsPerName)
  }

  datatype AnalyticsData = AnalyticsData(customEvents: map<string, seq<Event>>, timestamp: int, url: string)

  class AnalyticsManager {
    var customEvents: map<string, seq<Event>>

    constructor ()
      ensures customEvents == map[]
    {
      customEvents := map[];
    }

    /** The buffer kept under one event name, empty when none was tracked */
    function EventsNamed(name: string): seq<Event>
      reads this
    {
      if name in customEvents then customEvents[name] else []
    }

    /** trackCustomEvent: only the buffer of this name changes */
    method TrackCustomEvent(name: string, parameters: Parameters, context: Context)
      modifies this
      ensures customEvents == old(customEvents)[name :=
        AppendCapped(old(EventsNamed(name)), Event(name, parameters, context.now, context.url, context.userAgent))]
    {
      var event := Event(name, parameters, context.now, context.url, context.userAgent);
      ghost var before := EventsNamed(name);
      if name !in customEvents {
        customEvents := customEvents[name := []];
      }
      var events := customEvents[name] + [event];
      assert events == before + [event];
      if |events| > MaxEventsPerName {
        events := events[|events| - MaxEventsPerName..];
      }
      assert events == KeepLast(before + [event], MaxEventsPerName);
      customEvents := customEvents[name := events];
    }

    /** trackEvent: forwarded to gtag when it is initialised, and always recorded */
    method TrackEvent(name: string, parameters: Parameters, context: Context)
      modifies this
      ensures customEvents == old(customEvents)[name :=
        AppendCapped(old(EventsNamed(name)), Event(name, parameters, context.now, context.url, context.userAgent))]
    {
      TrackCustomEvent(name, parameters, context);
    }

    /**
     * trackPageView: `stamp` is the clock reading taken for the parameters, and
     * `context.now` the later one trackCustomEvent takes for the event itself
     */
    method TrackPageView(page: string, title: string, stamp: int, context: Context)
      modifies this
      ensures var parameters := map["page" := Text(page), "title" := Text(title),
                                    "url" := Text(context.url), "timestamp" := Number(stamp)];
        customEvents == old(customEvents)["page_view" :=
          AppendCapped(old(EventsNamed("page_view")), Event("page_view", parameters, context.now, context.url, context.userAgent))]
    {
      TrackCustomEvent("page_view", map["page" := Text(page), "title" := Text(title),
                                        "url" := Text(context.url), "timestamp" := Number(stamp)], context);
    }

    /** trackUserInteraction */
    method TrackUserInteraction(action: string, element: string, data: Parameters, context: Context)
      modifies this
      ensures var parameters := WithData(map["action" := Text(action), "element" := Text(element)], data);
        customEvents == old(customEvents)["user_interaction" :=
          AppendCapped(old(EventsNamed("user_interaction")), Event("user_interaction", parameters, context.now, context.url, context.userAgent))]
    {
      TrackEvent("user_interaction", WithData(map["action" := Text(action), "element" := Text(element)], data), context);
    }

    /** trackFormSubmission */
    method TrackFormSubmission(formName: string, success: bool, data: Parameters, context: Context)
      modifies this
      ensures var parameters := WithData(map["form_name" := Text(formName), "success" := Bool(success)], data);
        customEvents == old(customEvents)["form_submission" :=
          AppendCapped(old(EventsNamed("form_submission")), Event("form_submission", parameters, context.now, context.url, context.userAgent))]
    {
      TrackEvent("form_submission", WithData(map["form_name" := Text(formName), "success" := Bool(success)], data), context);
    }

    /** trackPerformance */
    method TrackPerformance(metric: string, value: int, data: Parameters, context: Context)
      modifies this
      ensures var parameters := WithData(map["metric" := Text(metric), "value" := Number(value)], data);
        customEvents == old(customEvents)["performance_metric" :=
          AppendCapped(old(EventsNamed("performance_metric")), Event("performance_metric", parameters, context.now, context.url, context.userAgent))]
    {
      TrackEvent("performance_metric", WithData(map["metric" := Text(metric), "value" := Number(value)], data), context);
    }

    /** trackError */
    method TrackError(errorType: string, errorMessage: string, data: Parameters, context: Context)
      modifies this
      ensures var parameters := WithData(map["error_type" := Text(errorType), "error_message" := Text(errorMessage)], data);
        customEvents == old(customEvents)["error" :=
          AppendCapped(old(EventsNamed("error")), Event("error", parameters, context.now, context.url, context.userAgent))]
    {
      TrackEvent("error", WithData(map["error_type" := Text(errorType), "error_message" := Text(errorMessage)], data), context);
    }

    /** getAnalyticsData: a new object holding every buffer (the arrays themselves, not copies), stamped with the time and the page */
    method GetAnalyticsData(context: Context) returns (data: AnalyticsData)
      ensures data.customEvents == customEvents
      ensures data.timestamp == context.now && data.url == context.url
    {
      var buffers := CopyEntries(customEvents);
      data := AnalyticsData(buffers, context.now, context.url);
    }

    /** clearAnalyticsData */
    method ClearAnalyticsData()
      modifies this
      ensures customEvents == map[]
    {
      customEvents := map[];
    }
  }

  /** Every buffer stays within its bound and holds only events of its own name, however events arrive */
  ghost predicate BuffersWellFormed(customEvents: map<string, seq<Event>>) {
    forall name :: name in customEvents ==>
      |customEvents[name]| <= MaxEventsPerName &&
      forall k :: 0 <= k < |customEvents[name]| ==> customEvents[name][k].name == name
  }

  /** A capped append onto a buffer of one name keeps every event of that name */
  lemma AppendCappedKeepsName(events: seq<Event>, e: Event)
    requires forall k :: 0 <= k < |events| ==> events[k].name == e.name
    ensures forall k :: 0 <= k < |AppendCapped(events, e)| ==> AppendCapped(events, e)[k].name == e.name
  {
    var r := AppendCapped(events, e);
    forall k | 0 <= k < |r| ensures r[k].name == e.name {
      if k == |r| - 1 {
        assert r[k] == e;
      } else if |events| < MaxEventsPerName {
        assert r[k] == events[k];
      } else {
        assert r[k] == events[|events| - (MaxEventsPerName - 1) + k];
      }
    }
  }

  lemma TrackingKeepsBuffersWellFormed(customEvents: map<string, seq<Event>>, name: string, e: Event)
    requires BuffersWellFormed(customEvents) && e.name == name
    ensures BuffersWellFormed(customEvents[name :=
      AppendCapped(if name in customEvents then customEvents[name] else [], e)])
  {
    var before := if name in customEvents then customEvents[name] else [];
    AppendCappedKeepsName(before, e);
  }
}
