/** The rows of the six warehouse tables after loading and type coercion,
    and the filter record the sidebar produces.

    Identifiers are strings (the loader casts every id column to the string
    dtype).  A value that may be NaN, NaT or <NA> is an `Option`.  A
    timestamp carries its seconds since the epoch together with its calendar
    fields, which are taken as given rather than derived. */
module Tables {
  import opened Wrappers

  type Id = string

  datatype Stamp = Stamp(seconds: int, year: int, month: int, dayOfMonth: int)
  {
    predicate Valid()
    {
      1 <= month <= 12 && 1 <= dayOfMonth <= 31
    }

    /** Ordinal of the calendar date (`dt.normalize()`), days since 1970-01-01. */
    function Day(): int
    {
      seconds / 86400
    }

    /** `dt.hour`. */
    function Hour(): (h: int)
      ensures 0 <= h < 24
    {
      (seconds % 86400) / 3600
    }
  }

  /** `dt.weekday` of a day ordinal: Monday is 0; 1970-01-01 was a Thursday. */
  function Weekday(day: int): (w: int)
    ensures 0 <= w < 7
  {
    (day + 3) % 7
  }

  datatype Session = Session(
    id: Option<Id>,
    createdAt: Option<Stamp>,
    userId: Id,
    isRepeat: Option<bool>,
    utmSource: Option<string>,
    utmCampaign: Option<string>,
    utmContent: Option<string>,
    deviceType: Option<string>,
    httpReferer: Option<string>)

  datatype Pageview = Pageview(id: Id, sessionId: Option<Id>, createdAt: Option<Stamp>, url: string)

  datatype Order = Order(id: Id, sessionId: Option<Id>, userId: Id, createdAt: Option<Stamp>, price: real)

  datatype OrderItem = OrderItem(id: Id, orderId: Id, productId: Id, createdAt: Option<Stamp>, price: real)

  datatype Product = Product(id: Id, name: string)

  datatype Refund = Refund(id: Id, orderItemId: Id, orderId: Id, createdAt: Option<Stamp>, amount: real)

  /** The sidebar's filter record.  The window is inclusive at both ends; an
      absent categorical list is the empty list. */
  datatype Filters = Filters(
    startTs: int,
    endTs: int,
    granularity: string,
    utmSource: seq<string>,
    utmCampaign: seq<string>,
    utmContent: seq<string>,
    deviceType: seq<string>,
    httpReferer: seq<string>,
    productNames: seq<string>,
    pageviewUrls: seq<string>)

  /** `start_ts <= created_at <= end_ts`; NaT compares false on both sides. */
  predicate InWindow(t: Option<Stamp>, start: int, end: int)
  {
    t.Some? && start <= t.value.seconds <= end
  }

  /** The seconds of a timestamp, NaT as `None`: the sort key of the pages. */
  function Seconds(t: Option<Stamp>): Option<int>
  {
    if t.Some? then Some(t.value.seconds) else None
  }
}
