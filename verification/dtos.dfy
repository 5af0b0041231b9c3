/** The request payloads of the POST and PUT endpoints. Their length and
    presence annotations are enforced, if at all, by the web framework, so
    here they only give the payloads their shape. */
module Dtos {
  import opened Wrappers
  import opened Models

  /** Body of `POST /api/records`: every field of a record but the id. */
  datatype CreateRecordRequest = CreateRecordRequest(
    date: DateTime,
    name: string,
    alpha: Decimal,
    beta: Decimal,
    gamma: Decimal,
    delta: Decimal,
    milestone1StartDate: Option<DateTime>,
    milestone1CompletionDate: Option<DateTime>,
    milestone2StartDate: Option<DateTime>,
    milestone2CompletionDate: Option<DateTime>,
    clientName: string,
    agentName: string)

  /** Body of `PUT /api/records/{id}`: every field of a record, id included. */
  datatype UpdateRecordRequest = UpdateRecordRequest(
    id: int,
    date: DateTime,
    name: string,
    alpha: Decimal,
    beta: Decimal,
    gamma: Decimal,
    delta: Decimal,
    milestone1StartDate: Option<DateTime>,
    milestone1CompletionDate: Option<DateTime>,
    milestone2StartDate: Option<DateTime>,
    milestone2CompletionDate: Option<DateTime>,
    clientName: string,
    agentName: string)
}
