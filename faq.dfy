/**
 * The FAQ entity and its two API routes: the admin create schema with its
 * defaults, the admin list and create replies, and the public read that
 * returns only active items, ordered by sort order, projected to the fields
 * a visitor may see.
 */
module Faq {
  import opened Wrappers
  import opened Json
  import opened Schema
  import opened Ordering

  /** A stored FAQ row. The Russian texts and the category may be null (`None`). */
  datatype FaqItem = FaqItem(
    id: string,
    question: string,
    answer: string,
    questionRu: Option<string>,
    answerRu: Option<string>,
    category: Option<string>,
    sortOrder: real,
    isActive: bool)

  /** What the public read exposes of a row: no sort order, no active flag. */
  datatype PublicFaq = PublicFaq(
    id: string,
    question: string,
    answer: string,
    questionRu: Option<string>,
    answerRu: Option<string>,
    category: Option<string>)

  /** The column the FAQ is ordered by. */
  function SortOrderOf(x: FaqItem): real {
    x.sortOrder
  }

  /** `orderBy: { sortOrder: "asc" }`. */
  function SortBySortOrder(xs: seq<FaqItem>): (r: seq<FaqItem>)
    ensures multiset(r) == multiset(xs)
    ensures SortOrderAscending(r)
  {
    SortAscending(xs, SortOrderOf)
  }

  predicate SortOrderAscending(xs: seq<FaqItem>) {
    Ascending(xs, SortOrderOf)
  }

  // ---------------------------------------------------------------- public read

  /** `where: { isActive: true }`. */
  function ActiveOnly(xs: seq<FaqItem>): (r: seq<FaqItem>)
    ensures multiset(r) <= multiset(xs)
    ensures forall x :: x in r <==> x in xs && x.isActive
  {
    if xs == [] then []
    else
      assert xs == [xs[0]] + xs[1..];
      (if xs[0].isActive then [xs[0]] else []) + ActiveOnly(xs[1..])
  }

  /** The `select` of the six public fields. */
  function Project(x: FaqItem): (p: PublicFaq)
    ensures p.id == x.id && p.question == x.question && p.answer == x.answer
    ensures p.questionRu == x.questionRu && p.answerRu == x.answerRu && p.category == x.category
  {
    PublicFaq(x.id, x.question, x.answer, x.questionRu, x.answerRu, x.category)
  }

  /** Every row of a list, projected, in the same order. */
  function ProjectAll(rows: seq<FaqItem>): (r: seq<PublicFaq>)
    ensures |r| == |rows|
    ensures forall k :: 0 <= k < |rows| ==> r[k] == Project(rows[k])
  {
    seq(|rows|, i requires 0 <= i < |rows| => Project(rows[i]))
  }

  /**
   * `GET /api/faq`: the active rows, ordered, projected; a failed read is
   * caught and answered with 500 "Failed to fetch FAQ".
   */
  function PublicRead(items: seq<FaqItem>, available: bool): (r: Result<seq<PublicFaq>, string>)
    ensures !available <==> r == Err("Failed to fetch FAQ")
  {
    if !available then Err("Failed to fetch FAQ")
    else Ok(ProjectAll(SortBySortOrder(ActiveOnly(items))))
  }

  /**
   * A successful public read lists the active rows in sort order, and
   * nothing else: its k-th entry is the projection of the k-th active row in
   * sort order, and every entry comes from an active row.
   */
  lemma PublicReadContents(items: seq<FaqItem>)
    ensures var r := PublicRead(items, true);
      var rows := SortBySortOrder(ActiveOnly(items));
      && r.Ok?
      && |r.value| == |rows| == |ActiveOnly(items)|
      && SortOrderAscending(rows)
      && (forall k :: 0 <= k < |rows| ==> r.value[k] == Project(rows[k]) && rows[k] in items && rows[k].isActive)
  {
    var rows := SortBySortOrder(ActiveOnly(items));
    assert |rows| == |multiset(rows)| == |multiset(ActiveOnly(items))| == |ActiveOnly(items)|;
    forall k | 0 <= k < |rows| ensures rows[k] in items && rows[k].isActive {
      assert rows[k] in multiset(rows);
    }
  }

  /** Every active row reaches a visitor. */
  lemma ActiveShown(items: seq<FaqItem>, x: FaqItem)
    requires x in items && x.isActive
    ensures PublicRead(items, true).Ok? && Project(x) in PublicRead(items, true).value
  {
    var rows := SortBySortOrder(ActiveOnly(items));
    assert x in multiset(ActiveOnly(items));
    assert x in multiset(rows);
    var k :| 0 <= k < |rows| && rows[k] == x;
    assert ProjectAll(rows)[k] == Project(x);
  }

  /** An inactive row never reaches a visitor when no other row shares its id. */
  lemma InactiveHidden(items: seq<FaqItem>, x: FaqItem)
    requires x in items && !x.isActive
    requires forall y :: y in items && y.id == x.id ==> y == x
    ensures PublicRead(items, true).Ok?
    ensures forall p :: p in PublicRead(items, true).value ==> p.id != x.id
  {
    PublicReadContents(items);
    var r := PublicRead(items, true).value;
    var rows := SortBySortOrder(ActiveOnly(items));
    forall p | p in r ensures p.id != x.id {
      var k :| 0 <= k < |r| && r[k] == p;
      assert rows[k] in items && rows[k].isActive;
    }
  }

  // ---------------------------------------------------------------- admin schema

  /** What `faqSchema.parse` yields; an optional text is `None` when absent. */
  datatype FaqInput = FaqInput(
    question: string,
    answer: string,
    questionRu: Option<string>,
    answerRu: Option<string>,
    category: Option<string>,
    sortOrder: real,
    isActive: bool)

  /**
   * `z.string().optional().nullable()`, as the update route of one item
   * declares its optional texts: absent and `null` are both no value.
   */
  function NullableString(fields: Fields, key: string): (r: Option<Option<string>>)
    ensures r == Some(None) <==> Lookup(fields, key).None? || Lookup(fields, key) == Some(JNull)
    ensures forall s :: r == Some(Some(s)) <==> Lookup(fields, key) == Some(JStr(s))
    ensures r.None? <==> Lookup(fields, key).Some? && !Lookup(fields, key).value.JStr? && !Lookup(fields, key).value.JNull?
  {
    match Lookup(fields, key)
    case None => Some(None)
    case Some(JNull) => Some(None)
    case Some(JStr(s)) => Some(Some(s))
    case _ => None
  }

  /** The readers of the three optional texts: as written (`.optional()`), or also accepting `null`. */
  function OptionalText(fields: Fields, key: string, nullable: bool): Option<Option<string>> {
    if nullable then NullableString(fields, key) else OptionalString(fields, key)
  }

  /**
   * `faqSchema.parse`: question and answer non-empty strings, the Russian
   * texts and category optional strings, sortOrder a number defaulting to
   * 0, isActive a boolean defaulting to true. With `nullable` false this is
   * the schema as written; with `nullable` true the optional texts also
   * accept `null`.
   */
  function ParseFaqWith(body: Json, nullable: bool): Option<FaqInput> {
    match AsObject(body)
    case None => None
    case Some(fields) =>
      var question := RequiredString(fields, "question", 1);
      var answer := RequiredString(fields, "answer", 1);
      var questionRu := OptionalText(fields, "questionRu", nullable);
      var answerRu := OptionalText(fields, "answerRu", nullable);
      var category := OptionalText(fields, "category", nullable);
      var sortOrder := NumberOr(fields, "sortOrder", 0.0);
      var isActive := BoolOr(fields, "isActive", true);
      if question.Some? && answer.Some? && questionRu.Some? && answerRu.Some? && category.Some?
         && sortOrder.Some? && isActive.Some?
      then Some(FaqInput(question.value, answer.value, questionRu.value, answerRu.value, category.value,
                         sortOrder.value, isActive.value))
      else None
  }

  /** The create schema as the admin collection route declares it. */
  function ParseFaqAsWritten(body: Json): Option<FaqInput> {
    ParseFaqWith(body, false)
  }

  /** The create schema with null accepted for the optional texts; the rest of the model uses this one. */
  function ParseFaq(body: Json): Option<FaqInput> {
    ParseFaqWith(body, true)
  }

  /**
   * What either schema accepts of an object: non-empty question and answer,
   * the defaults for absent sortOrder and isActive, and a `null` optional
   * text refused by the schema as written.
   */
  lemma ParseFaqMeaning(fields: Fields, nullable: bool)
    ensures var r := ParseFaqWith(JObj(fields), nullable);
      && (r.Some? ==> r.value.question != "" && r.value.answer != "")
      && (r.Some? ==> Lookup(fields, "question") == Some(JStr(r.value.question)))
      && (r.Some? ==> Lookup(fields, "answer") == Some(JStr(r.value.answer)))
      && (r.Some? && Lookup(fields, "sortOrder").None? ==> r.value.sortOrder == 0.0)
      && (r.Some? && Lookup(fields, "isActive").None? ==> r.value.isActive)
      && (!nullable && Lookup(fields, "questionRu") == Some(JNull) ==> r.None?)
      && (!nullable && Lookup(fields, "answerRu") == Some(JNull) ==> r.None?)
      && (!nullable && Lookup(fields, "category") == Some(JNull) ==> r.None?)
      && (Lookup(fields, "question").None? || Lookup(fields, "answer").None? ==> r.None?)
  {
    var r := ParseFaqWith(JObj(fields), nullable);
    if r.Some? {
      var question := RequiredString(fields, "question", 1);
      var answer := RequiredString(fields, "answer", 1);
      assert r.value.question == question.value && r.value.answer == answer.value;
      if Lookup(fields, "sortOrder").None? {
        assert NumberOr(fields, "sortOrder", 0.0) == Some(0.0);
      }
      if Lookup(fields, "isActive").None? {
        assert BoolOr(fields, "isActive", true) == Some(true);
      }
    }
  }

  // ---------------------------------------------------------------- admin routes

  datatype AdminReply =
    | Unauthorized              // 401 "Unauthorized"
    | List(items: seq<FaqItem>)  // 200
    | Created(item: FaqItem)     // 201
    | ValidationError            // 400 "Validation error", with Zod's issues
    | CreateFailed               // 500 "Failed to create FAQ"

  function Status(r: AdminReply): int {
    match r
    case Unauthorized => 401
    case List(_) => 200
    case Created(_) => 201
    case ValidationError => 400
    case CreateFailed => 500
  }

  /** `GET /api/admin/faq`: every row, active or not, ordered by sort order. */
  function AdminList(session: bool, items: seq<FaqItem>): (r: AdminReply)
    ensures !session <==> r == Unauthorized
    ensures session ==> r.List? && multiset(r.items) == multiset(items) && SortOrderAscending(r.items)
  {
    if !session then Unauthorized else List(SortBySortOrder(items))
  }

  /** The row `create` stores for a parsed input under the id the store assigns. */
  function Row(id: string, d: FaqInput): (x: FaqItem)
    ensures x.id == id && x.question == d.question && x.answer == d.answer && x.sortOrder == d.sortOrder
    ensures x.questionRu == d.questionRu && x.answerRu == d.answerRu && x.category == d.category && x.isActive == d.isActive
  {
    FaqItem(id, d.question, d.answer, d.questionRu, d.answerRu, d.category, d.sortOrder, d.isActive)
  }

  /**
   * `POST /api/admin/faq` against a parse: 401 without a session; a body
   * that is not JSON (`None`) or a failed insert is 500; a body the schema
   * refuses is 400; otherwise the created row with 201.
   */
  function AdminCreateWith(session: bool, body: Option<Json>, nullable: bool, id: string, available: bool): AdminReply {
    if !session then Unauthorized
    else if body.None? then CreateFailed
    else match ParseFaqWith(body.value, nullable)
      case None => ValidationError
      case Some(d) => if available then Created(Row(id, d)) else CreateFailed
  }

  function AdminCreateAsWritten(session: bool, body: Option<Json>, id: string, available: bool): AdminReply {
    AdminCreateWith(session, body, false, id, available)
  }

  function AdminCreate(session: bool, body: Option<Json>, id: string, available: bool): AdminReply {
    AdminCreateWith(session, body, true, id, available)
  }

  /** The status codes of creation, and what 201 stores. */
  lemma AdminCreateOutcome(session: bool, body: Option<Json>, nullable: bool, id: string, available: bool)
    ensures var r := AdminCreateWith(session, body, nullable, id, available);
      && (Status(r) == 401 <==> !session)
      && (Status(r) == 400 <==> session && body.Some? && ParseFaqWith(body.value, nullable).None?)
      && (Status(r) == 201 <==> session && body.Some? && ParseFaqWith(body.value, nullable).Some? && available)
      && (Status(r) == 500 <==> session && (body.None? || (ParseFaqWith(body.value, nullable).Some? && !available)))
      && (r.Created? ==> r.item == Row(id, ParseFaqWith(body.value, nullable).value) && r.item.question != "")
  {
    var r := AdminCreateWith(session, body, nullable, id, available);
    if r.Created? {
      ParseFaqMeaning(body.value.fields, nullable);
    }
  }
}
