/**
  What the application hands to the mail provider. The provider itself
  (an HTTP API) is outside the model: every send is an opaque
  success-or-failure answer supplied by the caller of the model.
 */
module EmailClient {

  /** The arguments of one send_email_elastic_mail call. */
  datatype EmailMessage = EmailMessage(
    recipient: string,
    subject: string,
    htmlContent: string,
    textContent: string)
}
