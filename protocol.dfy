/**
 * What the backend and the two client screens exchange: stored chat messages
 * and the refusals the HTTP endpoints raise, with the status code and the
 * `detail` text of each, and the JSON body a refusal arrives in.
 */
module Protocol {
  import opened Wrappers

  /** A stored chat message; `timestamp` is the server's `time.time()` when it was sent. */
  datatype Message = Message(sender: string, text: string, timestamp: real)

  /** Every HTTPException the modelled endpoints raise. */
  datatype ApiError =
    | EmailMissing        // send-verification: no e-mail
    | EmailNotSent        // send-verification: the mail could not be delivered
    | CodeFieldsMissing   // verify-code: no e-mail or no code
    | CodeNotFound        // verify-code: no code was issued for the e-mail
    | CodeExpired         // verify-code: the code is past its expiry
    | CodeWrong           // verify-code: the code does not match
    | AlreadyRegistered   // register: the e-mail is taken
    | BadCredentials      // login: unknown e-mail or wrong password
    | UserIdMissing       // chat request, cancel, probes: empty user id
    | UserNotFound        // chat request: unknown user
    | AlreadyInChat       // chat request: the user is busy
    | AlreadyWaiting      // chat request: the user is already in the waiting pool
    | RoomOrUserMissing   // end chat: empty room id or user id
    | NoPendingRequest    // cancel: the user is not waiting

  function StatusCode(e: ApiError): int {
    match e
    case EmailNotSent => 500
    case BadCredentials => 401
    case UserNotFound => 404
    case _ => 400
  }

  function Detail(e: ApiError): string {
    match e
    case EmailMissing => "E-posta adresi gerekli."
    case EmailNotSent => "E-posta gönderilemedi."
    case CodeFieldsMissing => "E-posta ve kod gerekli."
    case CodeNotFound => "Kod bulunamadı veya süresi doldu."
    case CodeExpired => "Kodun süresi doldu."
    case CodeWrong => "Kod yanlış."
    case AlreadyRegistered => "Bu e-posta ile zaten kayıt olunmuş."
    case BadCredentials => "E-posta veya şifre yanlış."
    case UserIdMissing => "Kullanıcı kimliği gerekli."
    case UserNotFound => "Kullanıcı bulunamadı."
    case AlreadyInChat => "Zaten aktif bir sohbettesiniz."
    case AlreadyWaiting => "Zaten eşleşme bekliyorsunuz."
    case RoomOrUserMissing => "Oda ID ve kullanıcı ID gerekli."
    case NoPendingRequest => "Bekleyen eşleşme isteği bulunamadı."
  }

  /** The two fields of a JSON reply body a client may look at. */
  datatype ReplyBody = ReplyBody(message: Option<string>, detail: Option<string>)

  /** FastAPI serialises an HTTPException as `{"detail": ...}`: there is no `message` field. */
  function ErrorBody(e: ApiError): ReplyBody {
    ReplyBody(None, Some(Detail(e)))
  }
}
