/**
 * What the request handlers see of the web framework and of the language-model client:
 * an HTTP error carries a status code, and a coaching-line request either raises or
 * returns a text (possibly empty).
 */
module Web {
  datatype HttpError = HttpError(statusCode: nat, detail: string)

  const BadRequest: nat := 400
  const NotFound: nat := 404
  const InternalServerError: nat := 500

  /** The outcome of one `generate_coaching_line` call. */
  datatype LlmReply = LlmRaised | LlmText(text: string)
}
