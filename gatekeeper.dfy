/**
 * The request handlers of the sign-in application: registration from a
 * screenshot (`signup`, then `confirm`), `login`, the forgotten-PIN path
 * (`forgot`, then `reset`), `logout`, the dashboard, and `manage_account`.
 * Each handler is a method over the account sheet and the session; what the
 * browser would be shown (a page, a redirect, a flash message) is the
 * handler's outcome value.
 */
module Gatekeeper {
  import opened Wrappers
  import opened Text
  import opened Accounts
  import opened NameExtractor
  import opened Store

  /** Where uploaded screenshots are saved. */
  const UploadFolder: string := "uploads"

  /** The path `confirm` falls back on when the session holds no upload. */
  const PlaceholderPath: string := "uploads/placeholder.png"

  /** Session keys. */
  const ScreenshotPathKey: string := "screenshot_path"
  const TrainerNameKey: string := "trainer_name"
  const ProgressKey: string := "progress"
  const ScreenshotKey: string := "screenshot"
  const ResetCodeKey: string := "reset_code"
  const ResetTrainerKey: string := "reset_trainer"
  const PinHashKey: string := "pin_hash"

  /** An uploaded screenshot: the file name the browser sent, the name it is
      saved under after sanitising, and the text read from the image. */
  datatype Upload = Upload(filename: string, savedName: string, text: string)

  /** `os.path.join(UploadFolder, savedName)`. */
  function UploadPath(savedName: string): string
  {
    if |savedName| > 0 && savedName[0] == '/' then savedName
    else UploadFolder + "/" + savedName
  }

  /** The URL under which `confirm` records the screenshot at `path`. */
  function ScreenshotUrl(path: string): string
  {
    "/uploads/" + Basename(path)
  }

  /** The screenshot path `confirm` uses: the one stored at upload, else the
      placeholder. */
  function PendingScreenshot(session: map<string, string>): string
  {
    if ScreenshotPathKey in session then session[ScreenshotPathKey] else PlaceholderPath
  }

  /** A screenshot saved under a name without a slash is recorded under
      that same name below /uploads/. */
  lemma UploadedScreenshotUrl(savedName: string)
    requires '/' !in savedName
    ensures ScreenshotUrl(UploadPath(savedName)) == "/uploads/" + savedName
  {
    var p := UploadPath(savedName);
    assert p == "uploads/" + savedName;
    var b := Basename(p);
    assert b == p[|p| - |savedName|..];
  }

  /** The placeholder's file name has no slash. */
  lemma PlaceholderNameHasNoSlash()
    ensures '/' !in "placeholder.png"
  {
  }

  /** The placeholder is a file of the upload folder. */
  lemma PlaceholderInUploadFolder()
    ensures PlaceholderPath == UploadPath("placeholder.png")
  {
  }

  /** Without an upload in the session the account records the placeholder. */
  lemma PlaceholderScreenshotUrl()
    ensures ScreenshotUrl(PlaceholderPath) == "/uploads/placeholder.png"
  {
    PlaceholderNameHasNoSlash();
    PlaceholderInUploadFolder();
    UploadedScreenshotUrl("placeholder.png");
  }

  /** The session after a successful login as `trainerName` on `row`. */
  function LoggedInSession(session: map<string, string>, trainerName: string, row: Row): map<string, string>
  {
    session[TrainerNameKey := trainerName][ProgressKey := row.progress]
           [ScreenshotKey := row.screenshotUrl][ResetCodeKey := row.resetCode]
  }

  /** What `/dashboard` shows. */
  datatype DashboardView =
    | SendToLogin
    | DashboardPage(trainerName: string, progress: string, screenshot: Option<string>, resetCode: Option<string>)

  function Get(session: map<string, string>, key: string): Option<string>
  {
    if key in session then Some(session[key]) else None
  }

  /** The dashboard: the login page unless a trainer is in the session, else
      the session's fields, progress showing 0 when absent. */
  function Dashboard(session: map<string, string>): DashboardView
  {
    if TrainerNameKey !in session then SendToLogin
    else DashboardPage(
      session[TrainerNameKey],
      if ProgressKey in session then session[ProgressKey] else "0",
      Get(session, ScreenshotKey),
      Get(session, ResetCodeKey))
  }

  /** After a login the dashboard shows exactly the stored row's fields. */
  lemma LoginThenDashboard(session: map<string, string>, trainerName: string, row: Row)
    ensures Dashboard(LoggedInSession(session, trainerName, row))
         == DashboardPage(trainerName, row.progress, Some(row.screenshotUrl), Some(row.resetCode))
  {
  }

  datatype SignupOutcome = NoFileUploaded | NoFileSelected | ConfirmName(candidate: string)
  datatype ConfirmOutcome = AlreadyRegistered(trainerName: string) | Registered
  datatype LoginOutcome = LoginFailed | LoggedIn
  datatype ForgotOutcome = BadRequest | NothingSelected | ConfirmReset(candidate: string)
  datatype ResetOutcome = ResetFailed | PinReset

  /** The two forms of the account page, and showing the page. */
  datatype ManageRequest =
    | ShowForm
    | UpdatePin(currentMemorable: string, newPin: string, confirmPin: string)
    | ResetMemorable(currentPin: string, newMemorable: string)

  datatype ManageOutcome =
    | NotLoggedIn
    | TrainerNotFound
    | FormShown
    | WrongMemorable
    | PinsDiffer
    | PinUpdated
    | WrongPin
    | MemorableUpdated

  /** The data row of the trainer the session is logged in as. */
  function SessionRow(rows: seq<Row>, session: map<string, string>): Option<nat>
  {
    if TrainerNameKey in session then Find(rows, ByName(session[TrainerNameKey])) else None
  }

  class App {
    /** `hash_value`: a deterministic digest, about which nothing else is known. */
    const hash: string -> string
    const sheet: Sheet
    var session: map<string, string>

    constructor (hash: string -> string, sheet: Sheet)
      ensures this.hash == hash && this.sheet == sheet && session == map[]
    {
      this.hash := hash;
      this.sheet := sheet;
      session := map[];
    }

    /** `/signup` (POST): save the screenshot, propose a name read from it,
        and remember where the screenshot is. */
    method Signup(upload: Option<Upload>) returns (outcome: SignupOutcome)
      modifies this
      ensures upload.None? ==> outcome == NoFileUploaded && session == old(session)
      ensures upload.Some? && upload.value.filename == [] ==>
                outcome == NoFileSelected && session == old(session)
      ensures upload.Some? && upload.value.filename != [] ==>
                && outcome == ConfirmName(CandidateName(upload.value.text))
                && session == old(session)[ScreenshotPathKey := UploadPath(upload.value.savedName)]
    {
      if upload.None? {
        return NoFileUploaded;
      }
      var file := upload.value;
      if file.filename == [] {
        return NoFileSelected;
      }
      var filepath := UploadPath(file.savedName);
      var trainerName := ExtractTrainerName(file.text);
      session := session[ScreenshotPathKey := filepath];
      outcome := ConfirmName(trainerName);
    }

    /** `/confirm`: create the account unless a data row already has the
        name; on success forget the pending screenshot. */
    method Confirm(trainerName: string, pin: string, resetCode: string) returns (outcome: ConfirmOutcome)
      modifies this, sheet
      ensures Find(old(sheet.rows), ByName(trainerName)).Some? ==>
                && outcome == AlreadyRegistered(trainerName)
                && sheet.rows == old(sheet.rows)
                && session == old(session)
      ensures Find(old(sheet.rows), ByName(trainerName)).None? ==>
                && outcome == Registered
                && sheet.rows == old(sheet.rows) + [NewAccount(hash, trainerName, pin, resetCode,
                                                              ScreenshotUrl(PendingScreenshot(old(session))))]
                && session == old(session) - {ScreenshotPathKey}
      ensures Consistent(old(sheet.rows), hash) ==> Consistent(sheet.rows, hash)
    {
      var screenshotUrl := ScreenshotUrl(PendingScreenshot(session));

      var rows := sheet.GetAllValues();
      var existing := Scan(rows, ByName(trainerName));
      if existing.Some? {
        return AlreadyRegistered(trainerName);
      }

      var account := NewAccount(hash, trainerName, pin, resetCode, screenshotUrl);
      RegistrationKeepsConsistency(rows, hash, account);
      sheet.AppendRow(account);
      session := session - {ScreenshotPathKey};
      outcome := Registered;
    }

    /** `/login` (POST): the first data row with this name and this PIN's
        digest logs the trainer in; any other case gets one and the same
        failure, whether the name is unknown or the PIN wrong. */
    method Login(trainerName: string, pin: string) returns (outcome: LoginOutcome)
      modifies this
      ensures sheet.rows == old(sheet.rows)
      ensures match Find(old(sheet.rows), ByPin(trainerName, hash(pin)))
              case Some(k) =>
                && outcome == LoggedIn
                && session == LoggedInSession(old(session), trainerName, old(sheet.rows)[k])
              case None =>
                outcome == LoginFailed && session == old(session)
    {
      var pinHash := hash(pin);
      var rows := sheet.GetAllValues();
      var found := Scan(rows, ByPin(trainerName, pinHash));
      if found.None? {
        return LoginFailed;
      }
      session := LoggedInSession(session, trainerName, rows[found.value]);
      outcome := LoggedIn;
    }

    /** `/forgot` (POST): propose a name read from the screenshot for the
        reset form; no lookup in the sheet happens here. */
    method Forgot(upload: Option<Upload>) returns (outcome: ForgotOutcome)
      modifies this
      ensures upload.None? ==> outcome == BadRequest && session == old(session)
      ensures upload.Some? && upload.value.filename == [] ==>
                outcome == NothingSelected && session == old(session)
      ensures upload.Some? && upload.value.filename != [] ==>
                && outcome == ConfirmReset(CandidateName(upload.value.text))
                && session == old(session)[ResetTrainerKey := CandidateName(upload.value.text)]
    {
      if upload.None? {
        return BadRequest;
      }
      var file := upload.value;
      if file.filename == [] {
        return NothingSelected;
      }
      var trainerName := ExtractTrainerName(file.text);
      session := session[ResetTrainerKey := trainerName];
      outcome := ConfirmReset(trainerName);
    }

    /** `/reset`: when a data row has this name and this reset code's
        digest, the first such row gets the new PIN's digest in column 2;
        otherwise nothing changes. */
    method Reset(trainerName: string, resetCode: string, newPin: string) returns (outcome: ResetOutcome)
      modifies sheet
      ensures match Find(old(sheet.rows), ByResetCode(trainerName, hash(resetCode)))
              case Some(k) =>
                && outcome == PinReset
                && sheet.rows == SetCell(old(sheet.rows), k + 1, PinHashColumn, hash(newPin))
              case None =>
                outcome == ResetFailed && sheet.rows == old(sheet.rows)
      ensures Consistent(old(sheet.rows), hash) ==> Consistent(sheet.rows, hash)
    {
      var resetCodeHash := hash(resetCode);
      var pinHash := hash(newPin);
      var rows := sheet.GetAllValues();
      var found := Scan(rows, ByResetCode(trainerName, resetCodeHash));
      if found.None? {
        return ResetFailed;
      }
      PinWriteKeepsConsistency(rows, hash, found.value, pinHash);
      sheet.UpdateCell(found.value + 1, PinHashColumn, pinHash);
      outcome := PinReset;
    }

    /** `/logout`: the session is emptied. */
    method Logout()
      modifies this
      ensures session == map[]
      ensures sheet.rows == old(sheet.rows)
    {
      session := map[];
    }

    /** `/manage_account`: the logged-in trainer changes the PIN (gated by the
        memorable phrase and a repeated new PIN) or the memorable phrase
        (gated by the PIN); only the trainer's own row is written. */
    method ManageAccount(request: ManageRequest) returns (outcome: ManageOutcome)
      modifies this, sheet
      ensures match SessionRow(old(sheet.rows), old(session))
              case None =>
                && outcome == (if TrainerNameKey in old(session) then TrainerNotFound else NotLoggedIn)
                && sheet.rows == old(sheet.rows) && session == old(session)
              case Some(k) =>
                var row := old(sheet.rows)[k];
                match request
                case ShowForm =>
                  outcome == FormShown && sheet.rows == old(sheet.rows) && session == old(session)
                case UpdatePin(currentMemorable, newPin, confirmPin) =>
                  if hash(currentMemorable) != row.resetCodeHash then
                    outcome == WrongMemorable && sheet.rows == old(sheet.rows) && session == old(session)
                  else if newPin != confirmPin then
                    outcome == PinsDiffer && sheet.rows == old(sheet.rows) && session == old(session)
                  else
                    && outcome == PinUpdated
                    && sheet.rows == SetCell(old(sheet.rows), k + 1, PinHashColumn, hash(newPin))
                    && session == old(session)[PinHashKey := hash(newPin)]
                case ResetMemorable(currentPin, newMemorable) =>
                  if hash(currentPin) != row.pinHash then
                    outcome == WrongPin && sheet.rows == old(sheet.rows) && session == old(session)
                  else
                    && outcome == MemorableUpdated
                    && sheet.rows == MemorableWrite(old(sheet.rows), hash, k, newMemorable)
                    && session == old(session)[ResetCodeKey := newMemorable]
      ensures Consistent(old(sheet.rows), hash) ==> Consistent(sheet.rows, hash)
    {
      if TrainerNameKey !in session {
        return NotLoggedIn;
      }
      var trainerName := session[TrainerNameKey];
      var rows := sheet.GetAllValues();
      var found := Scan(rows, ByName(trainerName));
      if found.None? {
        return TrainerNotFound;
      }
      var rowIndex := found.value + 1;
      var rowData := rows[rowIndex - 1];
      var storedPinHash := rowData.pinHash;
      var storedResetHash := rowData.resetCodeHash;

      match request {
        case ShowForm =>
          outcome := FormShown;
        case UpdatePin(currentMemorable, newPin, confirmPin) =>
          if hash(currentMemorable) != storedResetHash {
            return WrongMemorable;
          }
          if newPin != confirmPin {
            return PinsDiffer;
          }
          var newPinHash := hash(newPin);
          PinWriteKeepsConsistency(rows, hash, rowIndex - 1, newPinHash);
          sheet.UpdateCell(rowIndex, PinHashColumn, newPinHash);
          session := session[PinHashKey := newPinHash];
          outcome := PinUpdated;
        case ResetMemorable(currentPin, newMemorable) =>
          if hash(currentPin) != storedPinHash {
            return WrongPin;
          }
          var newMemorableHash := hash(newMemorable);
          MemorableWriteKeepsConsistency(rows, hash, rowIndex - 1, newMemorable);
          sheet.UpdateCell(rowIndex, ResetCodeColumn, newMemorable);
          sheet.UpdateCell(rowIndex, ResetCodeHashColumn, newMemorableHash);
          session := session[ResetCodeKey := newMemorable];
          outcome := MemorableUpdated;
      }
    }
  }
}
