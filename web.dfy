/**
  The request and response objects the framework hands to handlers and
  middleware. In the source they are WebOb objects; here they are values,
  and an in-place update of the source becomes a new value.
*/
module Web {
  /** The only part of an inbound request the core reads is its path. */
  datatype Request = Request(path: string)

  /**
    A response: its numeric status, its text body, and its content type,
    which stands for the rest of the response state that the core never touches.
  */
  datatype Response = Response(status: int, text: string, contentType: string)

  /** A freshly constructed WebOb response: 200, empty body, HTML content type. */
  function NewResponse(): Response
  {
    Response(200, "", "text/html")
  }
}
