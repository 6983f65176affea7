/**
 * The order e-mail endpoint (`POST /api/sendOrderEmail { orderId }`): the chain
 * of early-return status decisions, the recipient and subject rules, and the
 * plain-text body listing each purchased product with its image links.
 *
 * The two backend fetches and the two mail providers are inputs: each fetch is
 * given as its outcome, and each provider's send as whether it succeeded.
 * Environment variables are strings, with "" standing for an unset variable
 * (every one of them is read through `||`, so the two are the same there).
 */
module OrderEmail {
  import opened Wrappers
  import opened Text
  import opened Seqs

  // ---------------------------------------------------------------------------
  // Inputs
  // ---------------------------------------------------------------------------

  /** The `orderId` field of the JSON request body. */
  datatype Value = Missing | Num(n: int) | Str(s: string)

  /** JavaScript truthiness of the field: `!orderId` rejects a missing field, 0 and "". */
  predicate Truthy(v: Value) {
    match v
    case Missing => false
    case Num(n) => n != 0
    case Str(s) => s != []
  }

  /** The request methods the handler tells apart. */
  datatype HttpMethod = Options | Post | OtherMethod

  datatype Request = Request(httpMethod: HttpMethod, orderId: Value)

  datatype Env = Env(
    supabaseUrl: string, serviceRoleKey: string, anonKey: string,
    emailToOverride: string, resendToOverride: string,
    resendApiKey: string, resendFrom: string,
    smtpHost: string, smtpUser: string, smtpPass: string, smtpFrom: string,
    gmailUser: string, gmailAppPassword: string)

  /** An `orders` row; "" stands for a null reference or e-mail. */
  datatype Order = Order(eftReference: string, userEmail: string)

  /** An `order_items` snapshot row; "" stands for a null image list. */
  datatype OrderItem = OrderItem(productName: string, imageUrls: string)

  /**
   * The outcome of one backend fetch: a JSON array; a falsy JSON value (`null`,
   * `false`, `0`, `""`); any other JSON value that is not an array; a response
   * whose status is not 2xx (`!res.ok`); or a thrown network error.
   */
  datatype Fetched<T> = Rows(rows: seq<T>) | Falsy | OtherValue | HttpError(status: int) | Threw(message: string)

  /** What a provider call came to: accepted, answered with a non-2xx status, or thrown (a network error). */
  datatype SendResult = Sent | Rejected | SendThrew(message: string)

  // ---------------------------------------------------------------------------
  // Outputs
  // ---------------------------------------------------------------------------

  datatype Provider = Resend | Smtp

  datatype Mail = Mail(from: string, to: string, subject: string, text: string)

  datatype Outcome =
    | NoBody
    | Failure(error: string)
    | Emailed(provider: Provider, mail: Mail)
    | NotEmailed(reason: string)

  datatype Response = Response(status: int, outcome: Outcome)

  // The `error` and `reason` texts of the JSON replies.
  const MethodNotAllowed := "Method Not Allowed"
  const OrderIdRequired := "orderId required"
  const NotConfigured := "Server not configured (SUPABASE_URL/KEY missing)"
  const OrderFetchFailed := "Failed to fetch order"
  const OrderNotFound := "Order not found"
  const ItemsFetchFailed := "Failed to fetch items"
  const SendFailed := "Email send failed"
  const SmtpSendFailed := "Email send failed (SMTP)"
  const MissingUserEmail := "missing_user_email"
  const NoEmailProvider := "no_email_provider"

  // ---------------------------------------------------------------------------
  // Configuration, recipient and subject
  // ---------------------------------------------------------------------------

  /** The service-role key when set, else the anonymous key. */
  function BackendKey(env: Env): string {
    if env.serviceRoleKey != [] then env.serviceRoleKey else env.anonKey
  }

  predicate BackendConfigured(env: Env) {
    env.supabaseUrl != [] && BackendKey(env) != []
  }

  /** The test override address: the first set override variable, trimmed. */
  function OverrideTo(env: Env): (r: string)
    ensures IsTrimmed(r)
  {
    Trim(if env.emailToOverride != [] then env.emailToOverride else env.resendToOverride)
  }

  /** Where the mail goes: the override when there is one, else the address captured on the order. */
  function Recipient(env: Env, order: Order): (r: string)
    ensures OverrideTo(env) != [] ==> r == OverrideTo(env)
    ensures OverrideTo(env) == [] ==> r == Trim(order.userEmail)
  {
    TrimIdempotent(OverrideTo(env));
    Trim(if OverrideTo(env) != [] then OverrideTo(env) else order.userEmail)
  }

  const SubjectText := "Your digital purchase from Thomas AI Art"
  const OverrideTag := "[TEST OVERRIDE] "

  function Subject(overrideTo: string): string {
    (if overrideTo != [] then OverrideTag else "") + SubjectText
  }

  /** The subject carries the test tag exactly when an override is active, and always ends with the fixed text. */
  lemma SubjectTagged(overrideTo: string)
    ensures StartsWith(Subject(overrideTo), OverrideTag) <==> overrideTo != []
    ensures Subject(overrideTo)[|Subject(overrideTo)| - |SubjectText|..] == SubjectText
  {
    if overrideTo == [] {
      assert Subject(overrideTo) == SubjectText;
      assert SubjectText[0] != OverrideTag[0];
    }
  }

  /** The note appended to the text body while an override is active. */
  function OverrideNote(overrideTo: string, userEmail: string): string {
    if overrideTo == [] then ""
    else "\n\n[Test override active; original: " + (if userEmail != [] then userEmail else "unknown") + "]"
  }

  function ResendFrom(env: Env): string {
    if env.resendFrom != [] then env.resendFrom else "no-reply@example.com"
  }

  /** The SMTP settings, falling back to the Gmail ones. */
  function SmtpHost(env: Env): string {
    if env.smtpHost != [] then env.smtpHost else if env.gmailUser != [] then "smtp.gmail.com" else ""
  }

  predicate SmtpConfigured(env: Env) {
    && SmtpHost(env) != []
    && (env.smtpUser != [] || env.gmailUser != [])
    && (env.smtpPass != [] || env.gmailAppPassword != [])
  }

  function SmtpFrom(env: Env): string {
    if env.smtpFrom != [] then env.smtpFrom else ResendFrom(env)
  }

  /**
   * The text of the TypeError `(items || []).forEach` throws on a body that is
   * neither an array nor falsy; the model does not fix the engine's wording.
   */
  const NotIterable := "forEach is not a function"

  /** `e?.message || 'Server error'`. */
  function ServerError(message: string): string {
    if message != [] then message else "Server error"
  }

  // ---------------------------------------------------------------------------
  // The text body
  // ---------------------------------------------------------------------------

  const Thanks := "Thanks for " + "your purchase! " + "Here are " + "your images:"

  function Heading(n: nat, name: string): string {
    NatToString(n) + ". " + name
  }

  function Bullet(url: string): string {
    "   - " + url
  }

  function Bullets(urls: seq<string>): (r: seq<string>)
    ensures |r| == |urls| && forall k :: 0 <= k < |urls| ==> r[k] == Bullet(urls[k])
  {
    seq(|urls|, k requires 0 <= k < |urls| => Bullet(urls[k]))
  }

  /** The lines of the `n`-th item: its numbered name, then one bullet per image link. */
  function ItemBlock(n: nat, item: OrderItem): seq<string> {
    [Heading(n, item.productName)] + Bullets(ParseCsv(item.imageUrls))
  }

  /** The lines of all items, numbered from 1 in order. */
  function ItemsLines(items: seq<OrderItem>): seq<string> {
    if items == [] then []
    else ItemsLines(items[..|items| - 1]) + ItemBlock(|items|, items[|items| - 1])
  }

  function ReferenceLines(reference: string): seq<string> {
    if reference != [] then ["Reference: " + reference] else []
  }

  /** The lines of the message before they are joined with newlines. */
  function TextLines(items: seq<OrderItem>, reference: string): seq<string> {
    [Thanks, ""] + ItemsLines(items) + [""] + ReferenceLines(reference)
  }

  /** The number of image links across all items. */
  function LinkCount(items: seq<OrderItem>): nat {
    if items == [] then 0
    else LinkCount(items[..|items| - 1]) + |ParseCsv(items[|items| - 1].imageUrls)|
  }

  /**
   * The text body, built as the handler builds it: the lines are pushed one at a
   * time, an item's heading before its links, and then joined with newlines.
   */
  method BuildTextBody(items: seq<OrderItem>, reference: string) returns (body: string)
    ensures body == Join(TextLines(items, reference), "\n")
  {
    var itemLines := [];
    for i := 0 to |items|
      invariant itemLines == ItemsLines(items[..i])
    {
      itemLines := PushItem(itemLines, i + 1, items[i]);
      ItemsLinesSnoc(items, i);
    }
    assert items[..|items|] == items;
    var lines := [Thanks, ""] + itemLines + [""] + ReferenceLines(reference);
    body := Join(lines, "\n");
  }

  /** The body of the handler's `forEach`: one item's heading, then its links. */
  method PushItem(lines: seq<string>, n: nat, item: OrderItem) returns (out: seq<string>)
    ensures out == lines + ItemBlock(n, item)
  {
    out := PushLinks(lines + [Heading(n, item.productName)], ParseCsv(item.imageUrls));
  }

  /** `imgs.forEach(u => lines.push(`   - ${u}`))`. */
  method PushLinks(lines: seq<string>, imgs: seq<string>) returns (out: seq<string>)
    ensures out == lines + Bullets(imgs)
  {
    out := lines;
    for k := 0 to |imgs|
      invariant out == lines + Bullets(imgs[..k])
    {
      assert Bullets(imgs[..k + 1]) == Bullets(imgs[..k]) + [Bullet(imgs[k])];
      out := out + [Bullet(imgs[k])];
    }
    assert imgs[..|imgs|] == imgs;
  }

  lemma ItemsLinesSnoc(items: seq<OrderItem>, i: nat)
    requires i < |items|
    ensures ItemsLines(items[..i + 1]) == ItemsLines(items[..i]) + ItemBlock(i + 1, items[i])
  {
    assert items[..i + 1][..i] == items[..i];
  }

  /** Every item's block appears, in order, at the place its predecessors leave for it. */
  lemma {:induction false} ItemsLinesPrefix(items: seq<OrderItem>, i: nat)
    requires i < |items|
    ensures ItemsLines(items[..i]) + ItemBlock(i + 1, items[i]) <= ItemsLines(items)
    decreases |items|
  {
    if i < |items| - 1 {
      var init := items[..|items| - 1];
      assert init[..i] == items[..i] && init[i] == items[i];
      ItemsLinesPrefix(init, i);
    } else {
      assert items[..i] == items[..|items| - 1];
    }
  }

  /** A line of the items' part is a line of the message. */
  lemma ItemLineInText(items: seq<OrderItem>, reference: string, x: string)
    requires x in ItemsLines(items)
    ensures x in TextLines(items, reference)
  {
  }

  /** A line of the `i`-th item's block is a line of the items' part. */
  lemma BlockLineInItems(items: seq<OrderItem>, i: nat, x: string)
    requires i < |items| && x in ItemBlock(i + 1, items[i])
    ensures x in ItemsLines(items)
  {
    ItemsLinesPrefix(items, i);
    InPrefix(ItemsLines(items[..i]) + ItemBlock(i + 1, items[i]), ItemsLines(items), x);
  }

  /** Each line of an item's block is a line of the message. */
  lemma BlockLineListed(items: seq<OrderItem>, reference: string, i: nat, j: nat)
    requires i < |items| && j < |ItemBlock(i + 1, items[i])|
    ensures ItemBlock(i + 1, items[i])[j] in TextLines(items, reference)
  {
    var x := ItemBlock(i + 1, items[i])[j];
    BlockLineInItems(items, i, x);
    ItemLineInText(items, reference, x);
  }

  /**
   * The message lists every item, numbered from 1 in order, and under it every
   * non-empty image link of that item.
   */
  lemma ItemsListed(items: seq<OrderItem>, reference: string, i: nat)
    requires i < |items|
    ensures Heading(i + 1, items[i].productName) in TextLines(items, reference)
    ensures forall u :: u in ParseCsv(items[i].imageUrls) ==> Bullet(u) in TextLines(items, reference)
  {
    BlockLineListed(items, reference, i, 0);
    LinksListed(items, reference, i);
  }

  lemma LinksListed(items: seq<OrderItem>, reference: string, i: nat)
    requires i < |items|
    ensures forall u :: u in ParseCsv(items[i].imageUrls) ==> Bullet(u) in TextLines(items, reference)
  {
    var urls := ParseCsv(items[i].imageUrls);
    forall u | u in urls ensures Bullet(u) in TextLines(items, reference) {
      var k :| 0 <= k < |urls| && urls[k] == u;
      BlockLineListed(items, reference, i, k + 1);
    }
  }

  /** The items' part has one heading per item and one line per link. */
  lemma {:induction false} ItemsLinesCount(items: seq<OrderItem>)
    ensures |ItemsLines(items)| == |items| + LinkCount(items)
    decreases |items|
  {
    if items != [] {
      ItemsLinesCount(items[..|items| - 1]);
    }
  }

  /**
   * The message opens with the thanks line and a blank line, and closes with the
   * reference line when the order has a reference, else with a blank line.
   */
  lemma TextLinesShape(items: seq<OrderItem>, reference: string)
    ensures var lines := TextLines(items, reference);
      && |lines| == 3 + |items| + LinkCount(items) + (if reference != [] then 1 else 0)
      && lines[0] == Thanks && lines[1] == ""
      && lines[|lines| - 1] == (if reference != [] then "Reference: " + reference else "")
  {
    ItemsLinesCount(items);
  }

  /** No line of the items' part breaks, when no name or image list does. */
  lemma {:induction false} ItemsLinesUnbroken(items: seq<OrderItem>)
    requires forall i :: 0 <= i < |items| ==> '\n' !in items[i].productName && '\n' !in items[i].imageUrls
    ensures forall j :: 0 <= j < |ItemsLines(items)| ==> '\n' !in ItemsLines(items)[j]
    decreases |items|
  {
    if items != [] {
      var n := |items|;
      var last := items[n - 1];
      ItemsLinesUnbroken(items[..n - 1]);
      ParseCsvKeepsOut(last.imageUrls, '\n');
      var block := ItemBlock(n, last);
      assert '\n' !in NatToString(n);
      forall j | 0 <= j < |block| ensures '\n' !in block[j] {
        if j > 0 {
          assert ParseCsv(last.imageUrls)[j - 1] in ParseCsv(last.imageUrls);
        }
      }
    }
  }

  /**
   * Splitting the body at newlines gives its lines back, as long as no product
   * name, image list or reference holds a newline of its own.
   */
  lemma TextBodyLines(items: seq<OrderItem>, reference: string)
    requires forall i :: 0 <= i < |items| ==> '\n' !in items[i].productName && '\n' !in items[i].imageUrls
    requires '\n' !in reference
    ensures Split(Join(TextLines(items, reference), "\n"), '\n') == TextLines(items, reference)
  {
    TextLinesUnbroken(items, reference);
    SplitJoin(TextLines(items, reference), '\n');
  }

  lemma TextLinesUnbroken(items: seq<OrderItem>, reference: string)
    requires forall i :: 0 <= i < |items| ==> '\n' !in items[i].productName && '\n' !in items[i].imageUrls
    requires '\n' !in reference
    ensures forall j :: 0 <= j < |TextLines(items, reference)| ==> '\n' !in TextLines(items, reference)[j]
  {
    var mid := ItemsLines(items);
    ItemsLinesUnbroken(items);
    var head: seq<string> := [Thanks, ""];
    ThanksUnbroken();
    assert forall j :: 0 <= j < |head| ==> '\n' !in head[j];
    UnbrokenConcat(head, mid);
    UnbrokenConcat(head + mid, [""]);
    UnbrokenConcat(head + mid + [""], ReferenceLines(reference));
  }

  lemma ThanksUnbroken()
    ensures '\n' !in Thanks
  {
    assert '\n' !in "Thanks for " && '\n' !in "your purchase! ";
    assert '\n' !in "Here are " && '\n' !in "your images:";
  }

  lemma UnbrokenConcat(a: seq<string>, b: seq<string>)
    requires forall j :: 0 <= j < |a| ==> '\n' !in a[j]
    requires forall j :: 0 <= j < |b| ==> '\n' !in b[j]
    ensures forall j :: 0 <= j < |a + b| ==> '\n' !in (a + b)[j]
  {
  }

  // ---------------------------------------------------------------------------
  // The handler
  // ---------------------------------------------------------------------------

  /** The request got past the method and `orderId` checks. */
  predicate Accepted(req: Request) {
    req.httpMethod == Post && Truthy(req.orderId)
  }

  /** The order the first fetch found: the first element of a non-empty array. */
  function FoundOrder(orders: Fetched<Order>): Option<Order> {
    if orders.Rows? && |orders.rows| > 0 then Some(orders.rows[0]) else None
  }

  /** `items || []` on a body that is an array or falsy: the array, or nothing. */
  function ItemsOf(items: Fetched<OrderItem>): seq<OrderItem> {
    if items.Rows? then items.rows else []
  }

  /** Both fetches went through and found the order: the handler goes on to the mail. */
  predicate ReachesMail(req: Request, env: Env, orders: Fetched<Order>, items: Fetched<OrderItem>) {
    && Accepted(req) && BackendConfigured(env)
    && FoundOrder(orders).Some?
    && !items.HttpError? && !items.Threw? && !items.OtherValue?
  }

  /**
   * What happens once the order and its items are in: no recipient means no mail;
   * Resend is used when its key is set, else SMTP when configured, else no mail;
   * a provider that answers with an error is a 502, and a Resend request that
   * throws reaches the outer catch, a 500. The SMTP branch first loads the mail
   * module, before it looks at the settings: a module that does not load is a 502,
   * as is an SMTP send that fails. The mail carries the body and the override note.
   */
  predicate MailDecision(env: Env, order: Order, items: seq<OrderItem>, resend: SendResult, mailerLoads: bool, smtpOk: bool, r: Response) {
    var to := Recipient(env, order);
    var text := Join(TextLines(items, order.eftReference), "\n") + OverrideNote(OverrideTo(env), order.userEmail);
    && (to == [] ==> r == Response(200, NotEmailed(MissingUserEmail)))
    && (to != [] && env.resendApiKey != [] ==>
          r == match resend
               case Sent => Response(200, Emailed(Resend, Mail(ResendFrom(env), to, Subject(OverrideTo(env)), text)))
               case Rejected => Response(502, Failure(SendFailed))
               case SendThrew(m) => Response(500, Failure(ServerError(m))))
    && (to != [] && env.resendApiKey == [] && !mailerLoads ==>
          r == Response(502, Failure(SmtpSendFailed)))
    && (to != [] && env.resendApiKey == [] && mailerLoads && !SmtpConfigured(env) ==>
          r == Response(200, NotEmailed(NoEmailProvider)))
    && (to != [] && env.resendApiKey == [] && mailerLoads && SmtpConfigured(env) ==>
          r == if smtpOk then Response(200, Emailed(Smtp, Mail(SmtpFrom(env), to, Subject(OverrideTo(env)), text)))
               else Response(502, Failure(SmtpSendFailed)))
  }

  /** The handler after both fetches: recipient, body, then the provider. */
  method Deliver(env: Env, order: Order, items: seq<OrderItem>, resend: SendResult, mailerLoads: bool, smtpOk: bool)
    returns (r: Response)
    ensures MailDecision(env, order, items, resend, mailerLoads, smtpOk, r)
    ensures r.outcome.Emailed? ==> r.status == 200 && r.outcome.mail.to == Recipient(env, order) != []
    ensures r.outcome.Emailed? ==> (StartsWith(r.outcome.mail.subject, OverrideTag) <==> OverrideTo(env) != [])
  {
    var overrideTo := OverrideTo(env);
    var to := Recipient(env, order);
    if to == [] {
      return Response(200, NotEmailed(MissingUserEmail));
    }
    var body := BuildTextBody(items, order.eftReference);
    var text := body + OverrideNote(overrideTo, order.userEmail);
    var subject := Subject(overrideTo);
    SubjectTagged(overrideTo);
    if env.resendApiKey != [] {
      match resend {
        case Rejected => return Response(502, Failure(SendFailed));
        case SendThrew(m) => return Response(500, Failure(ServerError(m)));
        case Sent =>
      }
      return Response(200, Emailed(Resend, Mail(ResendFrom(env), to, subject, text)));
    }
    if !mailerLoads {
      return Response(502, Failure(SmtpSendFailed));
    }
    if !SmtpConfigured(env) {
      return Response(200, NotEmailed(NoEmailProvider));
    }
    if !smtpOk {
      return Response(502, Failure(SmtpSendFailed));
    }
    r := Response(200, Emailed(Smtp, Mail(SmtpFrom(env), to, subject, text)));
  }

  /**
   * The handler for one request. `resend` is what the Resend call came to,
   * `mailerLoads` whether `require('nodemailer')` succeeds and `smtpOk` whether
   * SMTP accepted the mail; a thrown fetch, and the TypeError
   * of an items body that is neither an array nor falsy, are answered by the
   * outer catch with 500.
   */
  method Handle(req: Request, env: Env, orders: Fetched<Order>, items: Fetched<OrderItem>, resend: SendResult,
                mailerLoads: bool, smtpOk: bool)
    returns (r: Response)
    // The checks before any fetch, in their order.
    ensures req.httpMethod == Options ==> r == Response(204, NoBody)
    ensures req.httpMethod == OtherMethod ==> r == Response(405, Failure(MethodNotAllowed))
    ensures req.httpMethod == Post && !Truthy(req.orderId) ==> r == Response(400, Failure(OrderIdRequired))
    ensures Accepted(req) && !BackendConfigured(env) ==>
      r == Response(500, Failure(NotConfigured))
    // The order fetch.
    ensures Accepted(req) && BackendConfigured(env) ==>
      && (orders.HttpError? ==> r == Response(orders.status, Failure(OrderFetchFailed)))
      && (orders.Threw? ==> r == Response(500, Failure(ServerError(orders.message))))
      && ((orders.Falsy? || orders.OtherValue? || orders == Rows([])) ==> r == Response(404, Failure(OrderNotFound)))
    // The items fetch.
    ensures Accepted(req) && BackendConfigured(env) && FoundOrder(orders).Some? ==>
      && (items.HttpError? ==> r == Response(items.status, Failure(ItemsFetchFailed)))
      && (items.Threw? ==> r == Response(500, Failure(ServerError(items.message))))
      && (items.OtherValue? && Recipient(env, FoundOrder(orders).value) == [] ==>
            r == Response(200, NotEmailed(MissingUserEmail)))
      && (items.OtherValue? && Recipient(env, FoundOrder(orders).value) != [] ==>
            r == Response(500, Failure(ServerError(NotIterable))))
    // The recipient and the providers.
    ensures ReachesMail(req, env, orders, items) ==>
      MailDecision(env, FoundOrder(orders).value, ItemsOf(items), resend, mailerLoads, smtpOk, r)
    // A mail goes out only for an accepted request whose order and items were fetched.
    ensures r.outcome.Emailed? ==> r.status == 200 && ReachesMail(req, env, orders, items)
  {
    if req.httpMethod == Options {
      return Response(204, NoBody);
    }
    if req.httpMethod != Post {
      return Response(405, Failure(MethodNotAllowed));
    }
    if !Truthy(req.orderId) {
      return Response(400, Failure(OrderIdRequired));
    }
    if !BackendConfigured(env) {
      return Response(500, Failure(NotConfigured));
    }
    match orders {
      case Threw(m) => return Response(500, Failure(ServerError(m)));
      case HttpError(s) => return Response(s, Failure(OrderFetchFailed));
      case _ =>
    }
    var found := FoundOrder(orders);
    if found.None? {
      return Response(404, Failure(OrderNotFound));
    }
    var order := found.value;
    match items {
      case Threw(m) => return Response(500, Failure(ServerError(m)));
      case HttpError(s) => return Response(s, Failure(ItemsFetchFailed));
      case _ =>
    }
    if items.OtherValue? && Recipient(env, order) != [] {
      return Response(500, Failure(ServerError(NotIterable)));
    }
    r := Deliver(env, order, ItemsOf(items), resend, mailerLoads, smtpOk);
  }
}
