/**
 * The plain-text protocol between a card reader and the scan endpoint.
 */
module Kiosk {
  import opened Common

  /** What a scan answers; the welcome and already-in replies carry the user's
      first name, which the text shows upper-cased. */
  datatype ScanReply =
    | InvalidCardId
    | MissingEventId
    | RegUrl(url: string)
    | Welcome(fname: string)
    | AlreadyCheckedIn(fname: string)
    | AlreadyIn(fname: string)
    | ServerError

  /** The HTTP status of a reply. */
  function StatusCode(r: ScanReply): (code: int)
    ensures code == 400 <==> (r == InvalidCardId || r == MissingEventId)
    ensures code == 500 <==> r == ServerError
  {
    match r
    case InvalidCardId => 400
    case MissingEventId => 400
    case ServerError => 500
    case _ => 200
  }

  /** The response body the reader displays. */
  function Body(r: ScanReply): string {
    match r
    case InvalidCardId => "INVALID_CARD_ID"
    case MissingEventId => "MISSING_EVENT_ID"
    case RegUrl(url) => url
    case Welcome(fname) => "WELCOME_" + Upper(fname)
    case AlreadyCheckedIn(fname) => "ALREADY_CHECKED_IN_" + Upper(fname)
    case AlreadyIn(fname) => "ALREADY_IN_" + Upper(fname)
    case ServerError => "SERVER_ERROR"
  }

  /** A card id from the request path is accepted when it is at least 4
      characters long (the empty path segment is falsy and shorter still). */
  predicate CardOk(cardId: string) {
    |cardId| >= 4
  }

  const DevFrontend: string := "http://localhost:5173"

  /** The main server's front-end address: the configured one when it is set
      and non-empty, the development server otherwise. */
  function BaseUrl(configured: Field): (url: string)
    ensures Truthy(configured) ==> url == configured.s
    ensures !Truthy(configured) ==> url == DevFrontend
  {
    if Truthy(configured) then configured.s else DevFrontend
  }

  /** The card controllers' front-end address: in production whatever is
      configured, rendered as text even when it is unset; otherwise the
      development server. */
  function FrontendUrl(production: bool, configured: Field): (url: string)
    ensures production ==> url == Render(configured)
    ensures !production ==> url == DevFrontend
  {
    if production then Render(configured) else DevFrontend
  }

  /** The link a reader turns into a QR code for an unknown card. */
  function RegistrationUrl(baseUrl: string, cardId: string, eventId: Field): string {
    baseUrl + "/register?cardId=" + cardId + "&eventId=" + Render(eventId)
  }

  /** The registration link ends with the card id and the event id exactly as scanned. */
  lemma RegistrationUrlCarriesIds(baseUrl: string, cardId: string, eventId: string)
    ensures var url := RegistrationUrl(baseUrl, cardId, Str(eventId));
      var tail := "/register?cardId=" + cardId + "&eventId=" + eventId;
      |url| == |baseUrl| + |tail| && url[..|baseUrl|] == baseUrl && url[|baseUrl|..] == tail
  {
    var tail := "/register?cardId=" + cardId + "&eventId=" + eventId;
    assert RegistrationUrl(baseUrl, cardId, Str(eventId)) == baseUrl + tail;
  }
}
