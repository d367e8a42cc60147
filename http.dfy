/** The error answer of an API route: an HTTP status and its `detail`. */
module Http {
  datatype HttpError = HttpError(status: int, detail: string)

  const CAMPAIGN_NOT_FOUND: HttpError := HttpError(404, "Campaign not found")
}
