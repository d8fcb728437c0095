/**
 * `sendBatchAction`: one personalised message per spreadsheet row that has
 * a recipient, sent through the sender the requested variant resolves to,
 * with one retry on the alternate port for the self-hosted variants and a
 * jittered pause between rows.
 *
 * The template engine, the name normaliser, the mail transport and the
 * random source are collaborators this model cannot see; they are given as
 * functions (`Engine`), so a batch is a function of its inputs and of what
 * those collaborators answer.
 */
module SendAction {
  import opened JsValues
  import opened JsStrings
  import opened Collections
  import opened EnvStore

  // ---------------------------------------------------------------------
  // Rows, payload and collaborators
  // ---------------------------------------------------------------------

  /** One spreadsheet row: column name to cell text. */
  type Row = map<string, string>

  /** `row[column]`, which is `undefined` for a column the row lacks. */
  function Field(row: Row, column: string): Option<string> {
    if column in row then Some(row[column]) else None
  }

  /** Which columns hold the recipient address, the name and (optionally) the subject. */
  datatype Mapping = Mapping(recipient: string, name: string, subject: Option<string>)

  datatype Attachment = Attachment(filename: string, contentBase64: string, contentType: Option<string>)

  /** The `rows` field: absent (or otherwise falsy), present but not an array, or an array of rows. */
  datatype RowsInput = NoRows | NotArray | RowArray(rows: seq<Row>)

  /**
   * The request. An absent optional field is `None`; a delay or jitter that
   * is not a number, or is NaN, is `None` as well.
   */
  datatype Payload = Payload(
    rows: RowsInput,
    mapping: Option<Mapping>,
    template: Option<string>,
    subjectTemplate: Option<string>,
    attachmentsByName: Option<map<string, seq<Attachment>>>,
    delayMs: Option<real>,
    jitterMs: Option<real>,
    systemVariant: Option<string>)

  /** The values a template sees: every column of the row, and `name` and `recipient`. */
  type Context = map<string, Option<string>>

  /** A mail route: the hosted provider's service, or an SMTP host and port. */
  datatype Route = Gmail | Smtp(host: Option<string>, port: Num, secure: bool)

  datatype Sender = Sender(email: string, password: string, name: string)

  datatype Message = Message(from: string, to: string, subject: string, html: string, attachments: seq<Attachment>)

  /**
   * One call of a transport's `sendMail`: which row it is for, whether it is
   * the first try or the retry, and what is sent where with which login.
   */
  datatype Attempt = Attempt(row: nat, try: nat, route: Route, user: string, pass: string, message: Message)

  /** What `sendMail` does: resolves with a message id, or throws an error with a message. */
  datatype Delivery = Delivered(messageId: string) | Failed(error: string)

  /**
   * The collaborators: `renderString` (None when it throws), `normalizeNameKey`,
   * the transport's answer to each attempt, and `Math.random()` for the i-th
   * pause.
   */
  datatype Engine = Engine(
    render: (string, Context) -> Option<string>,
    normalizeNameKey: string -> string,
    transport: Attempt -> Delivery,
    random: nat -> real)

  // ---------------------------------------------------------------------
  // renderTemplate
  // ---------------------------------------------------------------------

  /**
   * `{...row, name: row[mapping.name], recipient: row[mapping.recipient]}`:
   * the row's own cells, with `name` and `recipient` taken from the mapped
   * columns whatever the row holds under those names.
   */
  function RenderContext(row: Row, mapping: Mapping): (ctx: Context)
    ensures "name" in ctx && ctx["name"] == Field(row, mapping.name)
    ensures "recipient" in ctx && ctx["recipient"] == Field(row, mapping.recipient)
    ensures forall k :: k != "name" && k != "recipient" ==> (k in ctx <==> k in row)
    ensures forall k :: k in row && k != "name" && k != "recipient" ==> ctx[k] == Some(row[k])
  {
    (map k | k in row :: Some(row[k]))["name" := Field(row, mapping.name)]["recipient" := Field(row, mapping.recipient)]
  }

  datatype Rendered = Rendered(body: string, subject: string)

  /**
   * `renderTemplate`: the body is the rendered template, or the raw template
   * when rendering throws. The subject is the rendered subject template
   * (raw when rendering throws) when one is given and non-empty; else the
   * row's subject column when the mapping names one and the cell is
   * non-empty; else empty.
   */
  function RenderTemplate(render: (string, Context) -> Option<string>, html: string, subject: Option<string>,
                          row: Row, mapping: Mapping): (r: Rendered)
    ensures var ctx := RenderContext(row, mapping);
      r.body == (if render(html, ctx).Some? then render(html, ctx).value else html)
    ensures Truthy(subject) ==> var ctx := RenderContext(row, mapping);
      r.subject == (if render(subject.value, ctx).Some? then render(subject.value, ctx).value else subject.value)
    ensures !Truthy(subject) && mapping.subject.Some? && mapping.subject.value != "" && Truthy(Field(row, mapping.subject.value)) ==>
      r.subject == row[mapping.subject.value]
    ensures !Truthy(subject) && (mapping.subject.None? || mapping.subject.value == "" || !Truthy(Field(row, mapping.subject.value))) ==>
      r.subject == ""
  {
    var ctx := RenderContext(row, mapping);
    var body := match render(html, ctx) case Some(b) => b case None => html;
    var subj :=
      if Truthy(subject) then
        match render(subject.value, ctx) case Some(s) => Some(s) case None => subject
      else if mapping.subject.Some? && mapping.subject.value != "" && Truthy(Field(row, mapping.subject.value)) then
        Field(row, mapping.subject.value)
      else subject;
    Rendered(body, if Truthy(subj) then subj.value else "")
  }

  /**
   * A non-empty subject template decides the subject, whatever the engine:
   * the mapping's subject column is then never read, so pointing it at any
   * other column changes nothing in the message.
   */
  lemma SubjectTemplateOverridesColumn(render: (string, Context) -> Option<string>, html: string, subject: string,
                                       row: Row, mapping: Mapping, column: Option<string>)
    requires subject != ""
    ensures RenderTemplate(render, html, Some(subject), row, mapping)
         == RenderTemplate(render, html, Some(subject), row, mapping.(subject := column))
  {
    assert RenderContext(row, mapping) == RenderContext(row, mapping.(subject := column));
  }

  /**
   * When the template engine throws on both templates for this row, the
   * message carries the raw template and the raw subject template.
   */
  lemma FailedRenderKeepsRawText(render: (string, Context) -> Option<string>, html: string, subject: string,
                                 row: Row, mapping: Mapping)
    requires subject != ""
    requires render(html, RenderContext(row, mapping)) == None
    requires render(subject, RenderContext(row, mapping)) == None
    ensures RenderTemplate(render, html, Some(subject), row, mapping) == Rendered(html, subject)
  {
  }

  // ---------------------------------------------------------------------
  // Sender, routes and the fallback
  // ---------------------------------------------------------------------

  /**
   * The sender: each of the profile's (or variant's) values, or the process
   * environment's default when that one is empty; the name falls back to the
   * address. None when the address or the password ends up empty.
   */
  function ResolveSender(settings: SenderEnv, env: Env): (r: Option<Sender>)
    ensures var email := Or(settings.senderEmail, EnvVar(env, "SENDER_EMAIL"));
            var password := Or(settings.senderAppPassword, EnvVar(env, "SENDER_APP_PASSWORD"));
      && (r.Some? <==> Truthy(email) && Truthy(password))
      && (r.Some? ==> r.value.email == email.value && r.value.password == password.value)
    ensures r.Some? ==> r.value.email != "" && r.value.password != "" && r.value.name != ""
    ensures r.Some? && Truthy(settings.senderEmail) ==> r.value.email == settings.senderEmail.value
    ensures r.Some? && Truthy(settings.senderAppPassword) ==> r.value.password == settings.senderAppPassword.value
    ensures r.Some? && Truthy(settings.senderName) ==> r.value.name == settings.senderName.value
    ensures r.Some? && !Truthy(settings.senderName) && Truthy(EnvVar(env, "SENDER_NAME")) ==> r.value.name == env["SENDER_NAME"]
    ensures r.Some? && !Truthy(settings.senderName) && !Truthy(EnvVar(env, "SENDER_NAME")) ==> r.value.name == r.value.email
  {
    var email := Or(settings.senderEmail, EnvVar(env, "SENDER_EMAIL"));
    var password := Or(settings.senderAppPassword, EnvVar(env, "SENDER_APP_PASSWORD"));
    var name := Or(Or(settings.senderName, EnvVar(env, "SENDER_NAME")), email);
    if Truthy(email) && Truthy(password) then Some(Sender(email.value, password.value, name.value)) else None
  }

  /** An SMTP route; it uses implicit TLS exactly on port 465 (section 3.3 of RFC 8314). */
  function SmtpRoute(host: Option<string>, port: Num): (r: Route)
    ensures r.Smtp? && r.host == host && r.port == port
    ensures r.secure <==> port == Finite(465)
  {
    Smtp(host, port, port == Finite(465))
  }

  /** The first route: the variant's SMTP host on `PORT` for the self-hosted variants, the hosted service otherwise. */
  function PrimaryRoute(variant: Variant, settings: SenderEnv): (r: Route)
    ensures r.Smtp? <==> IsCyberph(variant)
    ensures r.Smtp? ==> r == SmtpRoute(settings.hostDomain, NumberOf(settings.port))
  {
    if IsCyberph(variant) then SmtpRoute(settings.hostDomain, NumberOf(settings.port)) else Gmail
  }

  /**
   * The retry route: the same host on `PORT_ALT`, for the self-hosted
   * variants only, and only when `Number(PORT_ALT)` is finite (which an
   * empty setting is: it reads as 0).
   */
  function FallbackRoute(variant: Variant, settings: SenderEnv): (r: Option<Route>)
    ensures r.Some? <==> IsCyberph(variant) && NumberOf(settings.portAlt).Finite?
    ensures r.Some? ==> r.value == SmtpRoute(settings.hostDomain, NumberOf(settings.portAlt))
  {
    var altPort := if IsCyberph(variant) then NumberOf(settings.portAlt) else NaN;
    if IsCyberph(variant) && altPort.Finite? then Some(SmtpRoute(settings.hostDomain, altPort)) else None
  }

  /** The first try of row `row`, on the primary route. */
  function FirstAttempt(row: nat, primary: Route, sender: Sender, msg: Message): Attempt {
    Attempt(row, 0, primary, sender.email, sender.password, msg)
  }

  /**
   * `sendWithFallback`: the primary route first; when it fails and there is a
   * fallback route, exactly one retry there, whose outcome (its error
   * included) is the outcome; when it fails and there is none, its own error.
   */
  function SendWithFallback(transport: Attempt -> Delivery, row: nat, primary: Route, fallback: Option<Route>,
                            sender: Sender, msg: Message): (r: (seq<Attempt>, Delivery))
    ensures 1 <= |r.0| <= 2
    ensures r.0[0] == FirstAttempt(row, primary, sender, msg)
    ensures |r.0| == 2 <==> transport(r.0[0]).Failed? && fallback.Some?
    ensures |r.0| == 2 ==> r.0[1] == Attempt(row, 1, fallback.value, sender.email, sender.password, msg)
    ensures r.1 == transport(r.0[|r.0| - 1])
    ensures forall i :: 0 <= i < |r.0| ==> r.0[i].row == row && r.0[i].message == msg
  {
    var first := FirstAttempt(row, primary, sender, msg);
    match transport(first)
    case Delivered(id) => ([first], Delivered(id))
    case Failed(err) =>
      if fallback.Some? then
        var retry := Attempt(row, 1, fallback.value, sender.email, sender.password, msg);
        ([first, retry], transport(retry))
      else ([first], Failed(err))
  }

  /** Only the self-hosted variants ever retry, and a retry is the last thing tried. */
  lemma RetryOnlyForSelfHosted(transport: Attempt -> Delivery, row: nat, variant: Variant, settings: SenderEnv,
                               sender: Sender, msg: Message)
    ensures var r := SendWithFallback(transport, row, PrimaryRoute(variant, settings), FallbackRoute(variant, settings), sender, msg);
      |r.0| == 2 ==> IsCyberph(variant) && r.0[0].route.Smtp? && r.0[1].route.port == NumberOf(settings.portAlt)
  {
  }

  // ---------------------------------------------------------------------
  // One row
  // ---------------------------------------------------------------------

  /** Everything a batch fixes before its first row. */
  datatype Plan = Plan(
    mapping: Mapping,
    template: string,
    subjectTemplate: Option<string>,
    attachmentsByName: Option<map<string, seq<Attachment>>>,
    sender: Sender,
    primary: Route,
    fallback: Option<Route>)

  /**
   * The attachments of a row: none when the normalised name is empty or no
   * attachments were given, else those given under that name, or none.
   */
  function AttachmentsFor(normalize: string -> string, byName: Option<map<string, seq<Attachment>>>,
                          row: Row, mapping: Mapping): (atts: seq<Attachment>)
    ensures var nameKey := normalize(if Truthy(Field(row, mapping.name)) then row[mapping.name] else "");
      && (nameKey == "" || byName.None? || nameKey !in byName.value ==> atts == [])
      && (nameKey != "" && byName.Some? && nameKey in byName.value ==> atts == byName.value[nameKey])
  {
    var nameKey := normalize(if Truthy(Field(row, mapping.name)) then row[mapping.name] else "");
    if nameKey != "" && byName.Some? then
      if nameKey in byName.value then byName.value[nameKey] else []
    else []
  }

  datatype Status = Sent | Error

  /** One entry of the report (its timestamp is not modelled). */
  datatype SendItem = SendItem(
    to: string,
    status: Status,
    subject: string,
    error: Option<string>,
    messageId: Option<string>,
    attachments: nat)

  /** A row the batch processes: its recipient cell is non-empty. */
  predicate HasRecipient(mapping: Mapping, row: Row) {
    Truthy(Field(row, mapping.recipient))
  }

  /** The message for a row with a recipient. */
  function MessageFor(plan: Plan, engine: Engine, row: Row): (m: Message)
    requires HasRecipient(plan.mapping, row)
    ensures m.to == row[plan.mapping.recipient] && m.to != ""
    ensures m.from == plan.sender.name + " <" + plan.sender.email + ">"
    ensures var rendered := RenderTemplate(engine.render, plan.template, plan.subjectTemplate, row, plan.mapping);
      m.subject == rendered.subject && m.html == rendered.body
    ensures m.attachments == AttachmentsFor(engine.normalizeNameKey, plan.attachmentsByName, row, plan.mapping)
  {
    var rendered := RenderTemplate(engine.render, plan.template, plan.subjectTemplate, row, plan.mapping);
    Message(plan.sender.name + " <" + plan.sender.email + ">", row[plan.mapping.recipient],
            rendered.subject, rendered.body,
            AttachmentsFor(engine.normalizeNameKey, plan.attachmentsByName, row, plan.mapping))
  }

  /**
   * What row `index` of the filtered rows yields: the transport calls it
   * makes, and its report entry, "sent" with the message id exactly when the
   * last call delivered, "error" with that call's message otherwise.
   */
  function RowOutcome(plan: Plan, engine: Engine, row: Row, index: nat): (r: (seq<Attempt>, SendItem))
    requires HasRecipient(plan.mapping, row)
    ensures r.0 == SendWithFallback(engine.transport, index, plan.primary, plan.fallback, plan.sender,
                                    MessageFor(plan, engine, row)).0
    ensures 1 <= |r.0| <= 2 && forall i :: 0 <= i < |r.0| ==> r.0[i].row == index
    ensures var last := engine.transport(r.0[|r.0| - 1]);
      && (r.1.status == Sent <==> last.Delivered?)
      && (last.Delivered? ==> r.1.messageId == Some(last.messageId) && r.1.error == None)
      && (last.Failed? ==> r.1.error == Some(last.error) && r.1.messageId == None)
    ensures r.1.to == row[plan.mapping.recipient]
    ensures r.1.subject == RenderTemplate(engine.render, plan.template, plan.subjectTemplate, row, plan.mapping).subject
    ensures r.1.attachments == |AttachmentsFor(engine.normalizeNameKey, plan.attachmentsByName, row, plan.mapping)|
  {
    var msg := MessageFor(plan, engine, row);
    var sent := SendWithFallback(engine.transport, index, plan.primary, plan.fallback, plan.sender, msg);
    var item := match sent.1
      case Delivered(id) => SendItem(msg.to, Sent, msg.subject, None, Some(id), |msg.attachments|)
      case Failed(err) => SendItem(msg.to, Error, msg.subject, Some(err), None, |msg.attachments|);
    (sent.0, item)
  }

  /**
   * The transport calls of the first `n` filtered rows, one group per row,
   * in row order; `Flatten` of it is the order the transport sees them in.
   */
  function AttemptLog(plan: Plan, engine: Engine, rows: seq<Row>, n: nat): (log: seq<seq<Attempt>>)
    requires n <= |rows| && forall i :: 0 <= i < |rows| ==> HasRecipient(plan.mapping, rows[i])
    ensures |log| == n
  {
    if n == 0 then []
    else AttemptLog(plan, engine, rows, n - 1) + [RowOutcome(plan, engine, rows[n - 1], n - 1).0]
  }

  /** Group `i` of the log is row `i`'s calls: by `RowOutcome`, the primary try and then the retry, if any. */
  lemma {:induction false} AttemptLogAt(plan: Plan, engine: Engine, rows: seq<Row>, n: nat, i: nat)
    requires n <= |rows| && forall i :: 0 <= i < |rows| ==> HasRecipient(plan.mapping, rows[i])
    requires i < n
    ensures AttemptLog(plan, engine, rows, n)[i] == RowOutcome(plan, engine, rows[i], i).0
  {
    var init := AttemptLog(plan, engine, rows, n - 1);
    assert AttemptLog(plan, engine, rows, n) == init + [RowOutcome(plan, engine, rows[n - 1], n - 1).0];
    if i < n - 1 {
      AttemptLogAt(plan, engine, rows, n - 1, i);
    }
  }

  /** In the order the transport sees them, `n` rows make between `n` and `2 n` calls. */
  lemma CallCount(plan: Plan, engine: Engine, rows: seq<Row>, n: nat)
    requires n <= |rows| && forall i :: 0 <= i < |rows| ==> HasRecipient(plan.mapping, rows[i])
    ensures n <= |Flatten(AttemptLog(plan, engine, rows, n))| <= 2 * n
  {
    var log := AttemptLog(plan, engine, rows, n);
    forall j | 0 <= j < n ensures 1 <= |log[j]| <= 2 {
      AttemptLogAt(plan, engine, rows, n, j);
    }
    FlattenLength(log);
  }

  /** The report entries of the first `n` filtered rows, in row order. */
  function Items(plan: Plan, engine: Engine, rows: seq<Row>, n: nat): (items: seq<SendItem>)
    requires n <= |rows| && forall i :: 0 <= i < |rows| ==> HasRecipient(plan.mapping, rows[i])
    ensures |items| == n
  {
    if n == 0 then []
    else Items(plan, engine, rows, n - 1) + [RowOutcome(plan, engine, rows[n - 1], n - 1).1]
  }

  /** Entry `i` of the report is what row `i` yields. */
  lemma {:induction false} ItemsAt(plan: Plan, engine: Engine, rows: seq<Row>, n: nat, i: nat)
    requires n <= |rows| && forall i :: 0 <= i < |rows| ==> HasRecipient(plan.mapping, rows[i])
    requires i < n
    ensures Items(plan, engine, rows, n)[i] == RowOutcome(plan, engine, rows[i], i).1
  {
    var init := Items(plan, engine, rows, n - 1);
    assert Items(plan, engine, rows, n) == init + [RowOutcome(plan, engine, rows[n - 1], n - 1).1];
    if i < n - 1 {
      ItemsAt(plan, engine, rows, n - 1, i);
    }
  }

  /** How many report entries say "sent". */
  function CountSent(items: seq<SendItem>): (n: nat)
    ensures n <= |items|
  {
    if items == [] then 0
    else CountSent(items[..|items| - 1]) + (if items[|items| - 1].status == Sent then 1 else 0)
  }

  /** Every entry says "sent" exactly when the count of "sent" entries is the number of entries. */
  lemma {:induction false} AllSentIffCountIsLength(items: seq<SendItem>)
    ensures CountSent(items) == |items| <==> forall i :: 0 <= i < |items| ==> items[i].status == Sent
  {
    if items != [] {
      var init := items[..|items| - 1];
      AllSentIffCountIsLength(init);
      assert forall i :: 0 <= i < |init| ==> init[i] == items[i];
      if CountSent(items) == |items| {
        forall i | 0 <= i < |items| ensures items[i].status == Sent {
          if i < |init| { assert items[i] == init[i]; }
        }
      }
    }
  }

  // ---------------------------------------------------------------------
  // Timing
  // ---------------------------------------------------------------------

  /** `delay`: the requested delay when it is a positive number, else 2000 ms. */
  function DelayOf(delayMs: Option<real>): (d: real)
    ensures d > 0.0
    ensures delayMs.Some? && delayMs.value > 0.0 ==> d == delayMs.value
    ensures delayMs.None? || delayMs.value <= 0.0 ==> d == 2000.0
  {
    if delayMs.Some? && delayMs.value > 0.0 then delayMs.value else 2000.0
  }

  /** `jitter`: the requested jitter rounded down when it is a non-negative number, else 250 ms. */
  function JitterOf(jitterMs: Option<real>): (j: nat)
    ensures jitterMs.Some? && jitterMs.value >= 0.0 ==> j as real <= jitterMs.value < j as real + 1.0
    ensures jitterMs.None? || jitterMs.value < 0.0 ==> j == 250
  {
    if jitterMs.Some? && jitterMs.value >= 0.0 then jitterMs.value.Floor else 250
  }

  /** The jitter offset for a draw `r` of `Math.random()`: a whole number in `[-jitter, jitter)`, 0 without jitter. */
  function JitterOffset(r: real, jitter: nat): (off: int)
    requires 0.0 <= r < 1.0
    ensures jitter == 0 ==> off == 0
    ensures jitter > 0 ==> -(jitter as int) <= off < jitter
  {
    if jitter > 0 then
      var x := (r * 2.0 - 1.0) * jitter as real;
      ScaledBounds(r * 2.0 - 1.0, jitter as real);
      assert x.Floor as real <= x < jitter as real;
      assert x.Floor < jitter;
      x.Floor
    else 0
  }

  lemma ScaledBounds(u: real, j: real)
    requires -1.0 <= u < 1.0 && j > 0.0
    ensures -j <= u * j < j
  {
    assert (u + 1.0) * j >= 0.0;
    assert (1.0 - u) * j > 0.0;
  }

  /** One pause: `max(0, delay + offset)`; it never exceeds `delay + jitter` and equals `delay` without jitter. */
  function WaitFor(delay: real, jitter: nat, r: real): (w: real)
    requires delay > 0.0 && 0.0 <= r < 1.0
    ensures 0.0 <= w <= delay + jitter as real
    ensures w >= delay - jitter as real
    ensures jitter == 0 ==> w == delay
  {
    var t := delay + JitterOffset(r, jitter) as real;
    if t > 0.0 then t else 0.0
  }

  /** The first `k` pauses, the i-th drawn with `random(i)`. */
  function Pauses(delay: real, jitter: nat, random: nat -> real, k: nat): (waits: seq<real>)
    requires delay > 0.0 && forall i :: 0.0 <= random(i) < 1.0
    ensures |waits| == k
  {
    if k == 0 then [] else Pauses(delay, jitter, random, k - 1) + [WaitFor(delay, jitter, random(k - 1))]
  }

  /** Pause `i` is `max(0, delay + offset)` for the i-th draw. */
  lemma {:induction false} PausesAt(delay: real, jitter: nat, random: nat -> real, k: nat, i: nat)
    requires delay > 0.0 && forall i :: 0.0 <= random(i) < 1.0
    requires i < k
    ensures Pauses(delay, jitter, random, k)[i] == WaitFor(delay, jitter, random(i))
  {
    if i < k - 1 {
      PausesAt(delay, jitter, random, k - 1, i);
    }
  }

  // ---------------------------------------------------------------------
  // sendBatchAction
  // ---------------------------------------------------------------------

  /** The payload has rows (as an array), a mapping and a non-empty template. */
  predicate Complete(payload: Payload): (b: bool)
    ensures b <==> payload.rows.RowArray? && payload.mapping.Some? && payload.template.Some? && payload.template.value != ""
  {
    payload.rows.RowArray? && payload.mapping.Some? && Truthy(payload.template)
  }

  /** The variant a batch uses: the requested one when it names a system variant, else the store's. */
  function BatchVariant(store: Store, payload: Payload): Variant
    reads store
  {
    ResolveVariant(payload.systemVariant, store.systemVariant)
  }

  /** The sender a batch resolves, if its address and password are both set. */
  function BatchSender(store: Store, env: Env, payload: Payload): Option<Sender>
    reads store
    requires store.Valid()
  {
    ResolveSender(store.SettingsFor(env, BatchVariant(store, payload)), env)
  }

  /** The plan of a complete payload whose sender resolves. */
  function BatchPlan(store: Store, env: Env, payload: Payload): Plan
    reads store
    requires store.Valid() && Complete(payload) && BatchSender(store, env, payload).Some?
  {
    var variant := BatchVariant(store, payload);
    var settings := store.SettingsFor(env, variant);
    Plan(payload.mapping.value, payload.template.value, payload.subjectTemplate, payload.attachmentsByName,
         BatchSender(store, env, payload).value, PrimaryRoute(variant, settings), FallbackRoute(variant, settings))
  }

  /** `rows.filter(r => r[mapping.recipient])`. */
  function Filtered(rows: seq<Row>, mapping: Mapping): (filtered: seq<Row>)
    ensures forall i :: 0 <= i < |filtered| ==> HasRecipient(mapping, filtered[i])
    ensures forall row :: row in filtered <==> row in rows && HasRecipient(mapping, row)
  {
    var f := Keep(rows, row => HasRecipient(mapping, row));
    assert forall i :: 0 <= i < |f| ==> f[i] in f;
    f
  }

  /** The filtered rows keep their original order, and every row with a recipient is among them. */
  lemma FilteredIsOrderedSelection(rows: seq<Row>, mapping: Mapping) returns (idx: seq<nat>)
    ensures |idx| == |Filtered(rows, mapping)| && Ascending(idx, |rows|)
    ensures forall i :: 0 <= i < |idx| ==> Filtered(rows, mapping)[i] == rows[idx[i]]
    ensures forall j :: 0 <= j < |rows| && HasRecipient(mapping, rows[j]) ==> j in idx
  {
    idx := KeepPositions(rows, row => HasRecipient(mapping, row));
  }

  datatype BatchResult =
    | BatchError(error: string)
    | BatchReport(ok: bool, sent: nat, failed: nat, items: seq<SendItem>)

  /** The number of pauses after processing `done` of `n` rows: one after each row but the last. */
  function PausesAfter(done: nat, n: nat): nat
    requires done <= n
  {
    if done == n && done > 0 then done - 1 else done
  }

  /** One more row appends its entry to the report and its calls to the log. */
  lemma RowStep(plan: Plan, engine: Engine, rows: seq<Row>, n: nat)
    requires n < |rows| && forall i :: 0 <= i < |rows| ==> HasRecipient(plan.mapping, rows[i])
    ensures var outcome := RowOutcome(plan, engine, rows[n], n);
      && Items(plan, engine, rows, n + 1) == Items(plan, engine, rows, n) + [outcome.1]
      && AttemptLog(plan, engine, rows, n + 1) == AttemptLog(plan, engine, rows, n) + [outcome.0]
  {
  }

  /** What the loop of `sendBatchAction` has produced after its first `done` rows. */
  ghost predicate Progress(plan: Plan, engine: Engine, rows: seq<Row>, delay: real, jitter: nat, done: nat,
                           items: seq<SendItem>, sent: nat, failed: nat, attempts: seq<seq<Attempt>>, waits: seq<real>)
    requires done <= |rows| && forall i :: 0 <= i < |rows| ==> HasRecipient(plan.mapping, rows[i])
    requires delay > 0.0 && forall i :: 0.0 <= engine.random(i) < 1.0
  {
    && items == Items(plan, engine, rows, done)
    && attempts == AttemptLog(plan, engine, rows, done)
    && sent == CountSent(items) && sent + failed == done
    && waits == Pauses(delay, jitter, engine.random, PausesAfter(done, |rows|))
  }

  /**
   * One pass of the loop body: row `index` is sent, its entry and calls are
   * appended, the matching counter goes up, and a pause follows unless it
   * was the last row.
   */
  method SendRow(plan: Plan, engine: Engine, rows: seq<Row>, delay: real, jitter: nat, index: nat,
                 items: seq<SendItem>, sent: nat, failed: nat, attempts: seq<seq<Attempt>>, waits: seq<real>)
    returns (items': seq<SendItem>, sent': nat, failed': nat, attempts': seq<seq<Attempt>>, waits': seq<real>)
    requires index < |rows| && forall i :: 0 <= i < |rows| ==> HasRecipient(plan.mapping, rows[i])
    requires delay > 0.0 && forall i :: 0.0 <= engine.random(i) < 1.0
    requires Progress(plan, engine, rows, delay, jitter, index, items, sent, failed, attempts, waits)
    ensures Progress(plan, engine, rows, delay, jitter, index + 1, items', sent', failed', attempts', waits')
  {
    var outcome := RowOutcome(plan, engine, rows[index], index);
    RowStep(plan, engine, rows, index);
    attempts' := attempts + [outcome.0];
    assert (items + [outcome.1])[..index] == items;
    sent', failed' := sent, failed;
    if outcome.1.status == Sent {
      sent' := sent + 1;
    } else {
      failed' := failed + 1;
    }
    items' := items + [outcome.1];
    waits' := waits;
    if delay > 0.0 && index < |rows| - 1 {
      waits' := waits + [WaitFor(delay, jitter, engine.random(index))];
    }
  }

  /**
   * The loop of `sendBatchAction` over the filtered rows: each row, in
   * order, gets its report entry and its transport calls, the sent and
   * failed counters follow the entries, and a pause follows every row but
   * the last.
   */
  method SendRows(plan: Plan, engine: Engine, rows: seq<Row>, delay: real, jitter: nat)
    returns (items: seq<SendItem>, sent: nat, failed: nat, attempts: seq<seq<Attempt>>, waits: seq<real>)
    requires forall i :: 0 <= i < |rows| ==> HasRecipient(plan.mapping, rows[i])
    requires delay > 0.0 && forall i :: 0.0 <= engine.random(i) < 1.0
    ensures items == Items(plan, engine, rows, |rows|)
    ensures attempts == AttemptLog(plan, engine, rows, |rows|)
    ensures sent == CountSent(items) && sent + failed == |rows|
    ensures waits == Pauses(delay, jitter, engine.random, PausesAfter(|rows|, |rows|))
  {
    items, attempts, waits := [], [], [];
    sent, failed := 0, 0;
    for index := 0 to |rows|
      invariant Progress(plan, engine, rows, delay, jitter, index, items, sent, failed, attempts, waits)
    {
      items, sent, failed, attempts, waits :=
        SendRow(plan, engine, rows, delay, jitter, index, items, sent, failed, attempts, waits);
    }
  }

  /**
   * `sendBatchAction`. An incomplete payload, and then a sender without an
   * address or password, end the batch with an error before any transport
   * call. Otherwise every row with a recipient, in order, gets one report
   * entry and its one or two transport calls; the counts of sent and failed
   * entries add up to the number of such rows, the batch is ok exactly when
   * every entry was sent, and a pause of `max(0, delay + offset)` follows
   * every row but the last.
   */
  method SendBatch(store: Store, env: Env, payload: Payload, engine: Engine)
    returns (result: BatchResult, attempts: seq<seq<Attempt>>, waits: seq<real>)
    requires store.Valid()
    requires forall i :: 0.0 <= engine.random(i) < 1.0
    ensures !Complete(payload) ==>
      result == BatchError("Missing required fields") && attempts == [] && waits == []
    ensures Complete(payload) && BatchSender(store, env, payload).None? ==>
      result == BatchError("Sender env vars missing") && attempts == [] && waits == []
    ensures Complete(payload) && BatchSender(store, env, payload).Some? ==>
      var plan := BatchPlan(store, env, payload);
      var filtered := Filtered(payload.rows.rows, plan.mapping);
      && result.BatchReport?
      && result.items == Items(plan, engine, filtered, |filtered|)
      && attempts == AttemptLog(plan, engine, filtered, |filtered|)
      && result.sent == CountSent(result.items)
      && result.sent + result.failed == |filtered|
      && (result.ok <==> forall i :: 0 <= i < |result.items| ==> result.items[i].status == Sent)
      && waits == Pauses(DelayOf(payload.delayMs), JitterOf(payload.jitterMs), engine.random, PausesAfter(|filtered|, |filtered|))
  {
    if !Complete(payload) {
      return BatchError("Missing required fields"), [], [];
    }
    var sender := BatchSender(store, env, payload);
    if sender.None? {
      return BatchError("Sender env vars missing"), [], [];
    }
    var plan := BatchPlan(store, env, payload);
    var filtered := Filtered(payload.rows.rows, plan.mapping);
    var items, sent, failed;
    items, sent, failed, attempts, waits :=
      SendRows(plan, engine, filtered, DelayOf(payload.delayMs), JitterOf(payload.jitterMs));
    AllSentIffCountIsLength(items);
    result := BatchReport(failed == 0, sent, failed, items);
  }
}
