/** The Report record of backend/src/models/Report.js: its status enum with
    the default `Submitted`, the required `filePath`, nullable `notes`, the
    DATEONLY `date` defaulting to now, and the owning `userId` that
    `belongsTo(User)` adds. `createdAt` is the timestamp the store adds to
    every row. */
module ReportModel {
  import opened Common

  datatype Status = Submitted | Reviewed | Rejected

  const DefaultStatus: Status := Submitted

  /** The enum value as the store holds it. */
  function StatusName(s: Status): string
  {
    match s
    case Submitted => "Submitted"
    case Reviewed => "Reviewed"
    case Rejected => "Rejected"
  }

  /** The enum check the schema applies to a status string: exactly the
      three names are values, nothing else is. */
  function ParseStatus(t: string): (r: Option<Status>)
    ensures r.Some? ==> StatusName(r.value) == t
    ensures r.None? <==> t != "Submitted" && t != "Reviewed" && t != "Rejected"
  {
    if t == "Submitted" then Some(Submitted)
    else if t == "Reviewed" then Some(Reviewed)
    else if t == "Rejected" then Some(Rejected)
    else None
  }

  /** Every status round-trips through its stored name. */
  lemma StatusNameRoundTrip(s: Status)
    ensures ParseStatus(StatusName(s)) == Some(s)
  {
  }

  /** A stored row. `filePath` cannot be null, `notes` can. */
  datatype Report = Report(
    id: nat,
    filePath: string,
    notes: Option<string>,
    status: Status,
    date: int,
    createdAt: int,
    userId: nat)

  /** The attributes a caller passes to `Report.create`; an absent
      attribute is `None`. */
  datatype ReportAttrs = ReportAttrs(
    filePath: Option<string>,
    notes: Option<string>,
    status: Option<string>,
    date: Option<int>,
    userId: nat)

  /** The outcome of the schema's checks on a create: the stored row, or
      the column whose constraint failed. */
  datatype Created = Stored(report: Report) | Invalid(column: string)

  /** `Report.create` as the schema defines it: a null `filePath` or a
      status outside the enum is refused, an absent status becomes
      `Submitted` and an absent date becomes the creation time. */
  function Create(id: nat, attrs: ReportAttrs, now: int): (c: Created)
    ensures c.Stored? <==>
      attrs.filePath.Some? && (attrs.status.None? || ParseStatus(attrs.status.value).Some?)
    ensures c.Stored? ==>
      && c.report.id == id
      && c.report.filePath == attrs.filePath.value
      && c.report.notes == attrs.notes
      && c.report.userId == attrs.userId
      && c.report.createdAt == now
      && c.report.date == (if attrs.date.Some? then attrs.date.value else now)
    ensures c.Stored? && attrs.status.None? ==> c.report.status == Submitted
    ensures c.Stored? && attrs.status.Some? ==> StatusName(c.report.status) == attrs.status.value
    ensures attrs.filePath.None? ==> c == Invalid("filePath")
  {
    if attrs.filePath.None? then Invalid("filePath")
    else
      var status := if attrs.status.Some? then ParseStatus(attrs.status.value) else Some(DefaultStatus);
      if status.None? then Invalid("status")
      else
        var date := if attrs.date.Some? then attrs.date.value else now;
        Stored(Report(id, attrs.filePath.value, attrs.notes, status.value, date, now, attrs.userId))
  }
}
