/**
 * The gateway of server/src/index.js: the single in-memory token set behind
 * `requireAuth`, `/auth/status` and `/auth/logout`; the `/api/drafts` pipeline
 * that finds the "review" label, keeps the drafts that carry it and flattens
 * each into a record; and the `/flag` and `/send` handlers.
 *
 * Gmail is not called: every Gmail answer is an input (`Fetch<T>`, where
 * `ProviderFailed` stands for a rejected promise), and each handler returns
 * the Gmail calls it issued, in order, beside its JSON response. Base64
 * decoding is the parameter `decode`.
 */
module Server {
  import opened Builtins

  // ---------------------------------------------------------------------------
  // Gmail resources, as the handlers read them (a JavaScript `undefined` field
  // is `None`)
  // ---------------------------------------------------------------------------

  datatype Label = Label(id: string, name: string)
  datatype Header = Header(name: string, value: string)
  /** `body` of a payload or a part; `data` is base64 text. */
  datatype PartBody = PartBody(data: Option<string>)
  datatype Part = Part(mimeType: string, body: Option<PartBody>)
  datatype Payload = Payload(headers: Option<seq<Header>>, body: Option<PartBody>, parts: Option<seq<Part>>)
  datatype Message = Message(id: Option<string>, labelIds: Option<seq<string>>, snippet: Option<string>,
                             payload: Option<Payload>)
  /** A draft fetched with `format: 'full'`. */
  datatype Draft = Draft(id: string, message: Option<Message>)

  /** The flat record `/api/drafts` returns for each kept draft. */
  datatype DraftRecord = DraftRecord(id: string, messageId: Option<string>, to: string, from: string,
                                     subject: string, body: string, snippet: string, date: string)

  /** The OAuth credential bundle; its contents are never inspected. */
  datatype TokenSet = TokenSet(accessToken: string, refreshToken: Option<string>, expiryDate: Option<int>)

  /** The outcome of one awaited Gmail or OAuth call. */
  datatype Fetch<+T> = Fetched(value: T) | ProviderFailed

  datatype ModifyRequest = ModifyRequest(addLabelIds: seq<string>, removeLabelIds: seq<string>)

  datatype GmailCall =
    | ListLabels
    | CreateLabel(name: string, labelListVisibility: string, messageListVisibility: string)
    | ListDrafts
    | GetDraft(draftId: string)
    | SendDraft(draftId: string)
    | ModifyMessage(messageId: Option<string>, request: ModifyRequest)

  /** The JSON a route answers with: a draft list, a success message, or an error status. */
  datatype ApiResponse =
    | DraftList(drafts: seq<DraftRecord>, notice: Option<string>)
    | Done(message: string)
    | Failed(status: nat, error: string)

  /** What a handler did: its response and the Gmail calls it issued. */
  datatype Handled = Handled(response: ApiResponse, calls: seq<GmailCall>)

  /** The query marker the OAuth callback redirects with. */
  datatype AuthMarker = AuthSuccess | AuthError

  const NotAuthenticated := Failed(401, "Not authenticated")
  const NoReviewLabelMessage := "No \"Review\" label found. Please create a label named \"Review\" in Gmail."
  const DraftsFailure := Failed(500, "Failed to fetch drafts")
  const SendFailure := Failed(500, "Failed to send draft")
  const FlagFailure := Failed(500, "Failed to flag draft")
  const FlaggedLabelCreation := CreateLabel("Flagged", "labelShow", "show")

  // ---------------------------------------------------------------------------
  // Label lookup
  // ---------------------------------------------------------------------------

  /** The position of the first label whose lower-cased name is `lowerName`. */
  function FindLabel(labels: seq<Label>, lowerName: string): (r: Option<nat>)
    ensures r.Some? ==> r.value < |labels| && Lower(labels[r.value].name) == lowerName
    ensures r.Some? ==> forall j :: 0 <= j < r.value ==> Lower(labels[j].name) != lowerName
    ensures r.None? <==> forall j :: 0 <= j < |labels| ==> Lower(labels[j].name) != lowerName
  {
    FindIndex(labels, (l: Label) => Lower(l.name) == lowerName)
  }

  /** `getReviewLabelId`: the id of the first label named "review" in any case. */
  function ReviewLabelId(labels: Option<seq<Label>>): (r: Option<string>)
    ensures var ls := labels.GetOr([]);
      r.None? <==> forall j :: 0 <= j < |ls| ==> Lower(ls[j].name) != "review"
    ensures var ls := labels.GetOr([]);
      forall i :: (0 <= i < |ls| && Lower(ls[i].name) == "review" &&
                   (forall j :: 0 <= j < i ==> Lower(ls[j].name) != "review")) ==> r == Some(ls[i].id)
  {
    var ls := labels.GetOr([]);
    match FindLabel(ls, "review")
    case Some(i) => Some(ls[i].id)
    case None => None
  }

  /** A label id used as a condition: absent and empty ids are both falsy. */
  predicate Resolved(id: Option<string>) {
    id.Some? && id.value != ""
  }

  // ---------------------------------------------------------------------------
  // Draft filtering and parsing
  // ---------------------------------------------------------------------------

  /** `draft.message?.labelIds || []` */
  function LabelIdsOf(d: Draft): seq<string> {
    if d.message.Some? then d.message.value.labelIds.GetOr([]) else []
  }

  /** The filter condition of `/api/drafts`, as a function of the review label id. */
  function CarriesLabel(labelId: string): Draft -> bool {
    (d: Draft) => labelId in LabelIdsOf(d)
  }

  function PayloadOf(d: Draft): Option<Payload> {
    if d.message.Some? then d.message.value.payload else None
  }

  /** `draft.message?.payload?.headers || []` */
  function HeadersOf(d: Draft): seq<Header> {
    var p := PayloadOf(d);
    if p.Some? then p.value.headers.GetOr([]) else []
  }

  /**
   * `v` is what `getHeader` promises for the lower-cased name: the value of the
   * first header whose lower-cased name matches, or "" when none does.
   */
  ghost predicate HeaderCopied(headers: seq<Header>, lowerName: string, v: string) {
    && ((forall j :: 0 <= j < |headers| ==> Lower(headers[j].name) != lowerName) ==> v == "")
    && (forall i :: (0 <= i < |headers| && Lower(headers[i].name) == lowerName &&
                     (forall j :: 0 <= j < i ==> Lower(headers[j].name) != lowerName)) ==>
                    v == headers[i].value)
  }

  /** `getHeader(name)`: the value of the first header whose name matches in any case, else "". */
  function GetHeader(headers: seq<Header>, name: string): (r: string)
    ensures HeaderCopied(headers, Lower(name), r)
  {
    match FindIndex(headers, (h: Header) => Lower(h.name) == Lower(name))
    case Some(i) => headers[i].value
    case None => ""
  }

  /** `x?.body?.data` used as a condition: the data when present and non-empty. */
  function DataOf(b: Option<PartBody>): Option<string> {
    if b.Some? && b.value.data.Some? && b.value.data.value != "" then b.value.data else None
  }

  predicate IsPlain(p: Part) { p.mimeType == "text/plain" }
  predicate IsHtml(p: Part) { p.mimeType == "text/html" }

  /** The part the body is read from: the first text/plain part, else the first text/html part. */
  function ChosenPart(parts: seq<Part>): (r: Option<nat>)
    ensures r.Some? ==> r.value < |parts| && (IsPlain(parts[r.value]) || IsHtml(parts[r.value]))
    ensures r.None? <==> forall j :: 0 <= j < |parts| ==> !IsPlain(parts[j]) && !IsHtml(parts[j])
    ensures forall i :: (0 <= i < |parts| && IsPlain(parts[i]) && (forall j :: 0 <= j < i ==> !IsPlain(parts[j]))) ==>
      r == Some(i)
    ensures (forall j :: 0 <= j < |parts| ==> !IsPlain(parts[j])) ==>
      forall i :: (0 <= i < |parts| && IsHtml(parts[i]) && (forall j :: 0 <= j < i ==> !IsHtml(parts[j]))) ==>
        r == Some(i)
  {
    match FindIndex(parts, (p: Part) => IsPlain(p))
    case Some(i) => Some(i)
    case None => FindIndex(parts, (p: Part) => IsHtml(p))
  }

  /** The base64 text the body is decoded from, if any. */
  function BodyData(payload: Option<Payload>): Option<string> {
    if payload.None? then None
    else if DataOf(payload.value.body).Some? then DataOf(payload.value.body)
    else if payload.value.parts.None? then None
    else
      match ChosenPart(payload.value.parts.value)
      case Some(i) => DataOf(payload.value.parts.value[i].body)
      case None => None
  }

  function BodyText(payload: Option<Payload>, decode: string -> string): string {
    match BodyData(payload)
    case Some(data) => decode(data)
    case None => ""
  }

  /**
   * The precedence behind the body: top-level body data wins; otherwise the
   * first text/plain part is used if there is one, else the first text/html
   * part; a chosen part without data gives "" (a text/plain part without data
   * does not fall back to HTML).
   */
  lemma BodyPrecedence(payload: Option<Payload>, decode: string -> string)
    ensures payload.None? ==> BodyText(payload, decode) == ""
    ensures payload.Some? && DataOf(payload.value.body).Some? ==>
      BodyText(payload, decode) == decode(DataOf(payload.value.body).value)
    ensures payload.Some? && DataOf(payload.value.body).None? && payload.value.parts.None? ==>
      BodyText(payload, decode) == ""
    ensures payload.Some? && DataOf(payload.value.body).None? && payload.value.parts.Some? ==>
      var parts := payload.value.parts.value;
      forall i :: (0 <= i < |parts| && IsPlain(parts[i]) && (forall j :: 0 <= j < i ==> !IsPlain(parts[j]))) ==>
        BodyText(payload, decode) == (if DataOf(parts[i].body).Some? then decode(DataOf(parts[i].body).value) else "")
    ensures payload.Some? && DataOf(payload.value.body).None? && payload.value.parts.Some? ==>
      var parts := payload.value.parts.value;
      (forall j :: 0 <= j < |parts| ==> !IsPlain(parts[j])) ==>
      forall i :: (0 <= i < |parts| && IsHtml(parts[i]) && (forall j :: 0 <= j < i ==> !IsHtml(parts[j]))) ==>
        BodyText(payload, decode) == (if DataOf(parts[i].body).Some? then decode(DataOf(parts[i].body).value) else "")
    ensures payload.Some? && DataOf(payload.value.body).None? && payload.value.parts.Some? ==>
      var parts := payload.value.parts.value;
      (forall j :: 0 <= j < |parts| ==> !IsPlain(parts[j]) && !IsHtml(parts[j])) ==> BodyText(payload, decode) == ""
  {
  }

  /** The `let body` of `/api/drafts`, chosen by the handler's if/else chain. */
  method ExtractBody(payload: Option<Payload>, decode: string -> string) returns (body: string)
    ensures body == BodyText(payload, decode)
  {
    body := "";
    if payload.Some? && DataOf(payload.value.body).Some? {
      body := decode(DataOf(payload.value.body).value);
    } else if payload.Some? && payload.value.parts.Some? {
      var parts := payload.value.parts.value;
      var textPart := ChosenPart(parts);
      if textPart.Some? && DataOf(parts[textPart.value].body).Some? {
        body := decode(DataOf(parts[textPart.value].body).value);
      }
    }
  }

  /** The record built for one kept draft. */
  function ParseDraft(d: Draft, decode: string -> string): DraftRecord {
    var headers := HeadersOf(d);
    DraftRecord(
      id := d.id,
      messageId := if d.message.Some? then d.message.value.id else None,
      to := GetHeader(headers, "To"),
      from := GetHeader(headers, "From"),
      subject := GetHeader(headers, "Subject"),
      body := BodyText(PayloadOf(d), decode),
      snippet := if d.message.Some? then Or(d.message.value.snippet.GetOr(""), "") else "",
      date := GetHeader(headers, "Date"))
  }

  /** The `filter` then `map` of `/api/drafts`. */
  function ListedDrafts(details: seq<Draft>, reviewId: string, decode: string -> string): seq<DraftRecord> {
    var kept := Filter(details, CarriesLabel(reviewId));
    seq(|kept|, k requires 0 <= k < |kept| => ParseDraft(kept[k], decode))
  }

  /**
   * One record per draft that carries the review label, in the order the
   * drafts were given: record k is parsed from the draft at the k-th kept
   * position, kept positions increase, and a position is kept exactly when
   * its draft's label ids (absent ids count as none) contain the review id.
   */
  lemma ListedDraftsAreReviewDrafts(details: seq<Draft>, reviewId: string, decode: string -> string)
    ensures var kept := KeptPositions(details, CarriesLabel(reviewId));
      && |ListedDrafts(details, reviewId, decode)| == |kept|
      && (forall k :: 0 <= k < |kept| ==>
            kept[k] < |details| && ListedDrafts(details, reviewId, decode)[k] == ParseDraft(details[kept[k]], decode))
      && (forall k, l :: 0 <= k < l < |kept| ==> kept[k] < kept[l])
      && (forall i :: 0 <= i < |details| ==> (i in kept <==> reviewId in LabelIdsOf(details[i])))
  {
    FilterSelects(details, CarriesLabel(reviewId));
  }

  /**
   * The record copies the draft's id and message id, takes To, From, Subject
   * and Date from the first header of that name in any case (else ""), the
   * snippet (else ""), and the body chosen by `BodyText`.
   */
  lemma ParsedRecordFields(d: Draft, decode: string -> string)
    ensures var r := ParseDraft(d, decode);
      && r.id == d.id
      && (d.message.None? ==> r.messageId.None? && r.snippet == "")
      && (d.message.Some? ==> r.messageId == d.message.value.id && r.snippet == d.message.value.snippet.GetOr(""))
      && HeaderCopied(HeadersOf(d), "to", r.to)
      && HeaderCopied(HeadersOf(d), "from", r.from)
      && HeaderCopied(HeadersOf(d), "subject", r.subject)
      && HeaderCopied(HeadersOf(d), "date", r.date)
      && r.body == BodyText(PayloadOf(d), decode)
  {
    assert Lower("To") == "to";
    assert Lower("From") == "from";
    assert Lower("Subject") == "subject";
    assert Lower("Date") == "date";
  }

  /** `Promise.all` over `drafts.get`: every draft in order, or a failure if any call failed. */
  function FetchAll(ids: seq<string>, getDraft: string -> Fetch<Draft>): (r: Fetch<seq<Draft>>)
    ensures r.Fetched? <==> forall i :: 0 <= i < |ids| ==> getDraft(ids[i]).Fetched?
    ensures r.Fetched? ==> |r.value| == |ids| && forall i :: 0 <= i < |ids| ==> r.value[i] == getDraft(ids[i]).value
  {
    if ids == [] then Fetched([])
    else
      match (getDraft(ids[0]), FetchAll(ids[1..], getDraft))
      case (Fetched(d), Fetched(rest)) => Fetched([d] + rest)
      case _ => ProviderFailed
  }

  // ---------------------------------------------------------------------------
  // Route handlers, once `requireAuth` has let the request through
  // ---------------------------------------------------------------------------

  /**
   * `GET /api/drafts`. A missing review label is not an error: the answer is an
   * empty list with an explanation. Any failed Gmail call gives a 500 and no
   * drafts at all.
   */
  function DraftsRoute(labels: Fetch<Option<seq<Label>>>, listed: Fetch<Option<seq<string>>>,
                       getDraft: string -> Fetch<Draft>, decode: string -> string): (h: Handled)
    ensures |h.calls| > 0 && h.calls[0] == ListLabels
    ensures labels.Fetched? && !Resolved(ReviewLabelId(labels.value)) ==>
      h.response.DraftList? && h.response.drafts == [] &&
      h.response.notice.Some? && h.response.notice.value != "" && h.calls == [ListLabels]
    ensures h.response.Failed? <==>
      labels.ProviderFailed? ||
      (Resolved(ReviewLabelId(labels.value)) &&
       (listed.ProviderFailed? || FetchAll(listed.value.GetOr([]), getDraft).ProviderFailed?))
    ensures h.response.Failed? ==> h.response == DraftsFailure
    ensures labels.Fetched? && Resolved(ReviewLabelId(labels.value)) && listed.Fetched? &&
            FetchAll(listed.value.GetOr([]), getDraft).Fetched? ==>
      h.response == DraftList(ListedDrafts(FetchAll(listed.value.GetOr([]), getDraft).value,
                                           ReviewLabelId(labels.value).value, decode), None)
    ensures labels.ProviderFailed? ==> h.calls == [ListLabels]
    ensures labels.Fetched? && Resolved(ReviewLabelId(labels.value)) && listed.ProviderFailed? ==>
      h.calls == [ListLabels, ListDrafts]
    ensures labels.Fetched? && Resolved(ReviewLabelId(labels.value)) && listed.Fetched? ==>
      var ids := listed.value.GetOr([]);
      && |h.calls| == 2 + |ids| && h.calls[..2] == [ListLabels, ListDrafts]
      && forall i :: 0 <= i < |ids| ==> h.calls[2 + i] == GetDraft(ids[i])
    ensures h.response.DraftList? && h.response.notice.None? ==>
      labels.Fetched? && Resolved(ReviewLabelId(labels.value)) && listed.Fetched? &&
      FetchAll(listed.value.GetOr([]), getDraft).Fetched? &&
      h.response.drafts == ListedDrafts(FetchAll(listed.value.GetOr([]), getDraft).value,
                                        ReviewLabelId(labels.value).value, decode)
    ensures !h.response.Done?
  {
    if labels.ProviderFailed? then Handled(DraftsFailure, [ListLabels])
    else
      var reviewId := ReviewLabelId(labels.value);
      if !Resolved(reviewId) then Handled(DraftList([], Some(NoReviewLabelMessage)), [ListLabels])
      else if listed.ProviderFailed? then Handled(DraftsFailure, [ListLabels, ListDrafts])
      else
        var ids := listed.value.GetOr([]);
        var calls := [ListLabels, ListDrafts] + seq(|ids|, i requires 0 <= i < |ids| => GetDraft(ids[i]));
        match FetchAll(ids, getDraft)
        case ProviderFailed => Handled(DraftsFailure, calls)
        case Fetched(details) => Handled(DraftList(ListedDrafts(details, reviewId.value, decode), None), calls)
  }

  /** `POST /api/drafts/:id/send` */
  function SendRoute(draftId: string, sent: Fetch<()>): (h: Handled)
    ensures h.calls == [SendDraft(draftId)]
    ensures sent.Fetched? ==> h.response == Done("Email sent successfully!")
    ensures sent.ProviderFailed? ==> h.response == SendFailure
  {
    var response := if sent.Fetched? then Done("Email sent successfully!") else SendFailure;
    Handled(response, [SendDraft(draftId)])
  }

  /** The label change for a flagged message: add Flagged and STARRED, drop Review if it resolved. */
  function FlagRequest(flaggedId: string, reviewId: Option<string>): ModifyRequest {
    ModifyRequest([flaggedId, "STARRED"], if Resolved(reviewId) then [reviewId.value] else [])
  }

  /**
   * `POST /api/drafts/:id/flag`: find or create the "Flagged" label, look the
   * review label up again, then modify the message. `created` is the answer to
   * the label creation (consulted only when it is issued) and `modified` the
   * answer to the modify call.
   */
  function FlagRoute(messageId: Option<string>, labels: Fetch<Option<seq<Label>>>, created: Fetch<Label>,
                     labelsAgain: Fetch<Option<seq<Label>>>, modified: Fetch<()>): (h: Handled)
  {
    if labels.ProviderFailed? then Handled(FlagFailure, [ListLabels])
    else
      var ls := labels.value.GetOr([]);
      var existing := FindLabel(ls, "flagged");
      var creation := if existing.Some? then [] else [FlaggedLabelCreation];
      if existing.None? && created.ProviderFailed? then Handled(FlagFailure, [ListLabels] + creation)
      else
        var flaggedId := if existing.Some? then ls[existing.value].id else created.value.id;
        var lookups := [ListLabels] + creation + [ListLabels];
        if labelsAgain.ProviderFailed? then Handled(FlagFailure, lookups)
        else
          var calls := lookups + [ModifyMessage(messageId, FlagRequest(flaggedId, ReviewLabelId(labelsAgain.value)))];
          if modified.ProviderFailed? then Handled(FlagFailure, calls)
          else Handled(Done("Draft flagged for your review!"), calls)
  }

  /**
   * Flagging reuses the first label named "flagged" in any case and creates
   * "Flagged" only when there is none; the modify request adds that label and
   * STARRED and removes exactly the review label when it resolves. The route
   * succeeds exactly when every call it issued succeeded.
   */
  lemma FlagRouteUsesOneFlaggedLabel(messageId: Option<string>, labels: Fetch<Option<seq<Label>>>,
                                     created: Fetch<Label>, labelsAgain: Fetch<Option<seq<Label>>>,
                                     modified: Fetch<()>)
    ensures var h := FlagRoute(messageId, labels, created, labelsAgain, modified);
      && h.calls[0] == ListLabels
      && (FlaggedLabelCreation in h.calls <==>
            labels.Fetched? &&
            forall j :: 0 <= j < |labels.value.GetOr([])| ==> Lower(labels.value.GetOr([])[j].name) != "flagged")
      && (h.response.Done? <==>
            labels.Fetched? && labelsAgain.Fetched? && modified.Fetched? &&
            (FlaggedLabelCreation in h.calls ==> created.Fetched?))
      && (h.response.Done? ==> h.response == Done("Draft flagged for your review!"))
      && (h.response.Failed? ==> h.response == FlagFailure)
      && (h.response.Done? || h.response == FlagFailure)
    ensures var h := FlagRoute(messageId, labels, created, labelsAgain, modified);
      h.calls[|h.calls| - 1].ModifyMessage? <==>
        labels.Fetched? && labelsAgain.Fetched? && (FlaggedLabelCreation in h.calls ==> created.Fetched?)
    ensures var h := FlagRoute(messageId, labels, created, labelsAgain, modified);
      forall c :: c in h.calls && c.ModifyMessage? ==>
        && c == h.calls[|h.calls| - 1]
        && c.messageId == messageId
        && |c.request.addLabelIds| == 2 && c.request.addLabelIds[1] == "STARRED"
        && labels.Fetched? && labelsAgain.Fetched?
        && (var ls := labels.value.GetOr([]);
            forall i :: 0 <= i < |ls| && Lower(ls[i].name) == "flagged" &&
                        (forall j :: 0 <= j < i ==> Lower(ls[j].name) != "flagged") ==>
                        c.request.addLabelIds[0] == ls[i].id)
        && (FlaggedLabelCreation in h.calls ==> c.request.addLabelIds[0] == created.value.id)
        && (Resolved(ReviewLabelId(labelsAgain.value)) ==>
              c.request.removeLabelIds == [ReviewLabelId(labelsAgain.value).value])
        && (!Resolved(ReviewLabelId(labelsAgain.value)) ==> c.request.removeLabelIds == [])
  {
  }

  /**
   * The calls `/flag` issues, in order: the label list; the creation of
   * "Flagged" when no label is named "flagged"; the label list again; then the
   * modify call. The log stops at the first call that failed.
   */
  lemma FlagRouteCallLog(messageId: Option<string>, labels: Fetch<Option<seq<Label>>>,
                         created: Fetch<Label>, labelsAgain: Fetch<Option<seq<Label>>>,
                         modified: Fetch<()>)
    ensures var h := FlagRoute(messageId, labels, created, labelsAgain, modified);
      labels.Fetched? ==>
      var creation := if FindLabel(labels.value.GetOr([]), "flagged").None? then [FlaggedLabelCreation] else [];
      && (creation != [] && created.ProviderFailed? ==> h.calls == [ListLabels] + creation)
      && ((creation != [] ==> created.Fetched?) ==>
            && |h.calls| >= |creation| + 2
            && h.calls[..|creation| + 2] == [ListLabels] + creation + [ListLabels]
            && (labelsAgain.ProviderFailed? ==> |h.calls| == |creation| + 2)
            && (labelsAgain.Fetched? ==> |h.calls| == |creation| + 3 && h.calls[|creation| + 2].ModifyMessage?))
    ensures var h := FlagRoute(messageId, labels, created, labelsAgain, modified);
      labels.ProviderFailed? ==> h.calls == [ListLabels]
  {
    if labels.Fetched? {
      var ls := labels.value.GetOr([]);
      var creation := if FindLabel(ls, "flagged").None? then [FlaggedLabelCreation] else [];
      if creation == [] || created.Fetched? {
        var h := FlagRoute(messageId, labels, created, labelsAgain, modified);
        assert h.calls[..|creation| + 2] == [ListLabels] + creation + [ListLabels];
      }
    }
  }

  // ---------------------------------------------------------------------------
  // The token state
  // ---------------------------------------------------------------------------

  /**
   * The process-wide session: `userTokens` (the module variable) and the
   * credentials the shared OAuth client was last given (`credentials`).
   */
  class Gateway {
    var userTokens: Option<TokenSet>
    var credentials: Option<TokenSet>

    constructor ()
      ensures userTokens == None && credentials == None
    {
      userTokens := None;
      credentials := None;
    }

    /** `GET /auth/google/callback`: store the exchanged tokens, or leave everything as it was. */
    method CompleteLogin(exchange: Fetch<TokenSet>) returns (marker: AuthMarker)
      modifies this
      ensures exchange.Fetched? ==>
        marker == AuthSuccess && userTokens == Some(exchange.value) && credentials == Some(exchange.value)
      ensures exchange.ProviderFailed? ==>
        marker == AuthError && userTokens == old(userTokens) && credentials == old(credentials)
    {
      if exchange.Fetched? {
        userTokens := Some(exchange.value);
        credentials := Some(exchange.value);
        marker := AuthSuccess;
      } else {
        marker := AuthError;
      }
    }

    /** `GET /auth/status` */
    method Status() returns (authenticated: bool)
      ensures authenticated <==> userTokens.Some?
    {
      authenticated := userTokens.Some?;
    }

    /** `POST /auth/logout`: forget the tokens (the OAuth client keeps its credentials). */
    method Logout()
      modifies this`userTokens
      ensures userTokens == None
    {
      userTokens := None;
    }

    /** `requireAuth`: let the request through only when tokens are stored, and hand them to the client. */
    method RequireAuth() returns (passed: bool)
      modifies this`credentials
      ensures passed <==> userTokens.Some?
      ensures credentials == if passed then userTokens else old(credentials)
    {
      passed := userTokens.Some?;
      if passed {
        credentials := userTokens;
      }
    }

    method GetDrafts(labels: Fetch<Option<seq<Label>>>, listed: Fetch<Option<seq<string>>>,
                     getDraft: string -> Fetch<Draft>, decode: string -> string) returns (h: Handled)
      modifies this`credentials
      ensures userTokens.None? ==> h == Handled(NotAuthenticated, []) && credentials == old(credentials)
      ensures userTokens.Some? ==> h == DraftsRoute(labels, listed, getDraft, decode) && credentials == userTokens
    {
      var passed := RequireAuth();
      if !passed {
        return Handled(NotAuthenticated, []);
      }
      h := DraftsRoute(labels, listed, getDraft, decode);
    }

    method Send(draftId: string, sent: Fetch<()>) returns (h: Handled)
      modifies this`credentials
      ensures userTokens.None? ==> h == Handled(NotAuthenticated, []) && credentials == old(credentials)
      ensures userTokens.Some? ==> h == SendRoute(draftId, sent) && credentials == userTokens
    {
      var passed := RequireAuth();
      if !passed {
        return Handled(NotAuthenticated, []);
      }
      h := SendRoute(draftId, sent);
    }

    method Flag(messageId: Option<string>, labels: Fetch<Option<seq<Label>>>, created: Fetch<Label>,
                labelsAgain: Fetch<Option<seq<Label>>>, modified: Fetch<()>) returns (h: Handled)
      modifies this`credentials
      ensures userTokens.None? ==> h == Handled(NotAuthenticated, []) && credentials == old(credentials)
      ensures userTokens.Some? ==>
        h == FlagRoute(messageId, labels, created, labelsAgain, modified) && credentials == userTokens
    {
      var passed := RequireAuth();
      if !passed {
        return Handled(NotAuthenticated, []);
      }
      h := FlagRoute(messageId, labels, created, labelsAgain, modified);
    }
  }

  /** After a logout no Gmail route issues a call: the drafts list answers 401. */
  method LogoutLocksTheApi(g: Gateway, labels: Fetch<Option<seq<Label>>>, listed: Fetch<Option<seq<string>>>,
                           getDraft: string -> Fetch<Draft>, decode: string -> string) returns (h: Handled)
    modifies g
    ensures h == Handled(NotAuthenticated, [])
    ensures g.userTokens == None
  {
    g.Logout();
    h := g.GetDrafts(labels, listed, getDraft, decode);
  }
}
