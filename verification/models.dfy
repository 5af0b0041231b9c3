/** The `Record` entity and the value types its fields are made of. */
module Models {
  import opened Wrappers

  /** A point in time as a count of 100-nanosecond ticks, the unit of a
      .NET `DateTime`. The service never computes on dates; it only copies
      them, so any faithful encoding will do. */
  datatype DateTime = DateTime(ticks: int)

  /** Ticks in one day (24 * 60 * 60 * 10^7). */
  const TicksPerDay: int := 864_000_000_000

  /** `DateTime.AddDays` for a whole number of days. */
  function AddDays(t: DateTime, days: int): DateTime
  {
    DateTime(t.ticks + days * TicksPerDay)
  }

  /** A .NET `decimal` as its integer coefficient and power-of-ten scale
      (`125.50m` is `Decimal(12550, 2)`). Decimal fields are only copied. */
  datatype Decimal = Decimal(unscaled: int, scale: nat)

  /** The sole entity: an identifier assigned by the store and twelve
      fields supplied by the client. Absent milestone dates are `None`. */
  datatype Record = Record(
    id: int,
    date: DateTime,
    name: string,
    alpha: Decimal,
    beta: Decimal,
    gamma: Decimal,
    delta: Decimal,
    milestone1StartDate: Option<DateTime>,
    milestone1CompletionDate: Option<DateTime>,
    milestone2StartDate: Option<DateTime>,
    milestone2CompletionDate: Option<DateTime>,
    clientName: string,
    agentName: string)

  /** `a` and `b` agree on every field except, possibly, the identifier. */
  predicate SameDetails(a: Record, b: Record)
  {
    && a.date == b.date
    && a.name == b.name
    && a.alpha == b.alpha
    && a.beta == b.beta
    && a.gamma == b.gamma
    && a.delta == b.delta
    && a.milestone1StartDate == b.milestone1StartDate
    && a.milestone1CompletionDate == b.milestone1CompletionDate
    && a.milestone2StartDate == b.milestone2StartDate
    && a.milestone2CompletionDate == b.milestone2CompletionDate
    && a.clientName == b.clientName
    && a.agentName == b.agentName
  }

  /** Two records with the same details and the same identifier are equal:
      the identifier and the twelve details are the whole record. */
  lemma SameDetailsAndIdIsEqual(a: Record, b: Record)
    requires SameDetails(a, b) && a.id == b.id
    ensures a == b
  {
  }

  /** The update step of the store: every client-supplied field of
      `existing` is overwritten with the one of `incoming`; the identifier
      of `existing` is kept. */
  function Overwrite(existing: Record, incoming: Record): (r: Record)
    ensures r.id == existing.id
    ensures SameDetails(r, incoming)
  {
    existing.(
      date := incoming.date,
      name := incoming.name,
      alpha := incoming.alpha,
      beta := incoming.beta,
      gamma := incoming.gamma,
      delta := incoming.delta,
      milestone1StartDate := incoming.milestone1StartDate,
      milestone1CompletionDate := incoming.milestone1CompletionDate,
      milestone2StartDate := incoming.milestone2StartDate,
      milestone2CompletionDate := incoming.milestone2CompletionDate,
      clientName := incoming.clientName,
      agentName := incoming.agentName)
  }
}
