/**
 * The admin FAQ table's edit modal: which item it edits, the form it
 * holds, the request a submit sends, and how the optional texts travel
 * between a stored `null` and the form's empty string.
 */
module FaqTable {
  import opened Wrappers
  import opened Strings
  import opened Config
  import opened Json
  import opened Schema
  import opened Faq

  /** The modal's form: the optional texts are plain strings here, "" for none. */
  datatype FormData = FormData(
    question: string,
    answer: string,
    questionRu: string,
    answerRu: string,
    category: string,
    sortOrder: real,
    isActive: bool)

  /** `emptyForm`. */
  function EmptyForm(): (f: FormData)
    ensures f.question == f.answer == f.questionRu == f.answerRu == f.category == ""
    ensures f.sortOrder == 0.0 && f.isActive
  {
    FormData("", "", "", "", "", 0.0, true)
  }

  /** The form for a new item: the empty form placed after the `count` listed items. */
  function NewForm(count: nat): FormData {
    EmptyForm().(sortOrder := count as real)
  }

  /** The form for an existing item: its fields, a `null` optional text shown as "". */
  function EditForm(faq: FaqItem): (f: FormData)
    ensures f.question == faq.question && f.answer == faq.answer
    ensures f.questionRu == OrElse(faq.questionRu, "") && f.answerRu == OrElse(faq.answerRu, "")
    ensures f.category == OrElse(faq.category, "")
    ensures f.sortOrder == faq.sortOrder && f.isActive == faq.isActive
  {
    FormData(faq.question, faq.answer, OrElse(faq.questionRu, ""), OrElse(faq.answerRu, ""),
             OrElse(faq.category, ""), faq.sortOrder, faq.isActive)
  }

  /** `s || null` for a form text. */
  function NullIfEmpty(s: string): (j: Json)
    ensures j == JNull <==> s == ""
    ensures s != "" ==> j == JStr(s)
  {
    if s == "" then JNull else JStr(s)
  }

  /** The members of a submitted body, in the form's key order. */
  function SubmitMembers(f: FormData): seq<(string, Option<Json>)> {
    [("question", Some(JStr(f.question))), ("answer", Some(JStr(f.answer))),
     ("questionRu", Some(NullIfEmpty(f.questionRu))), ("answerRu", Some(NullIfEmpty(f.answerRu))),
     ("category", Some(NullIfEmpty(f.category))),
     ("sortOrder", Some(JNum(f.sortOrder))), ("isActive", Some(JBool(f.isActive)))]
  }

  /** `{...formData, questionRu: formData.questionRu || null, ...}`, as JSON. */
  function SubmitBody(f: FormData): Json {
    JObj(Members(SubmitMembers(f)))
  }

  /** A request the table sends: its URL, its method and its JSON body, if any. */
  datatype Request = Request(url: string, verb: string, body: Option<Json>)

  const CollectionUrl := "/api/admin/faq"

  /** The URL of one item. */
  function ItemUrl(id: string): (u: string)
    ensures StartsWith(u, CollectionUrl + "/") && u[|CollectionUrl| + 1..] == id
  {
    CollectionUrl + "/" + id
  }

  /** A submit: PATCH to the item when a (non-empty) id is being edited, else POST to the collection. */
  function SubmitRequest(editingId: Option<string>, f: FormData): Request {
    if Truthy(editingId) then Request(ItemUrl(editingId.value), "PATCH", Some(SubmitBody(f)))
    else Request(CollectionUrl, "POST", Some(SubmitBody(f)))
  }

  /** `toggleActive`: a PATCH to the item whose body holds only the flipped `isActive`. */
  function ToggleRequest(faq: FaqItem): (r: Request)
    ensures r.url == ItemUrl(faq.id) && r.verb == "PATCH"
    ensures r.body.Some? && r.body.value.JObj? && Keys(r.body.value.fields) == ["isActive"]
    ensures Lookup(r.body.value.fields, "isActive") == Some(JBool(!faq.isActive))
  {
    Request(ItemUrl(faq.id), "PATCH", Some(JObj([("isActive", JBool(!faq.isActive))])))
  }

  /** `handleDelete`: nothing unless the confirmation is accepted, then a DELETE to the item. */
  function DeleteRequest(id: string, confirmed: bool): (r: Option<Request>)
    ensures r.Some? <==> confirmed
    ensures r.Some? ==> r.value == Request(ItemUrl(id), "DELETE", None)
  {
    if confirmed then Some(Request(ItemUrl(id), "DELETE", None)) else None
  }

  /** The sort-order input: `parseInt(value) || 0`, so `NaN` and 0 both give 0. */
  function SortOrderInput(text: string, parseInt: ParseInt): (r: real)
    ensures parseInt(text).None? ==> r == 0.0
    ensures forall n :: parseInt(text) == Some(n) ==> r == n as real
  {
    match parseInt(text)
    case None => 0.0
    case Some(n) => n as real
  }

  // ---------------------------------------------------------------- the body

  /** What each key of a submitted body holds: the texts, null for exactly the empty optional texts. */
  lemma SubmitBodyLookups(f: FormData)
    ensures var fs := SubmitBody(f).fields;
      && Lookup(fs, "question") == Some(JStr(f.question))
      && Lookup(fs, "answer") == Some(JStr(f.answer))
      && Lookup(fs, "questionRu") == Some(NullIfEmpty(f.questionRu))
      && Lookup(fs, "answerRu") == Some(NullIfEmpty(f.answerRu))
      && Lookup(fs, "category") == Some(NullIfEmpty(f.category))
      && Lookup(fs, "sortOrder") == Some(JNum(f.sortOrder))
      && Lookup(fs, "isActive") == Some(JBool(f.isActive))
  {
    var ms := SubmitMembers(f);
    assert forall a, b :: 0 <= a < b < |ms| ==> ms[a].0 != ms[b].0;
    MembersLookup(ms, 0);
    MembersLookup(ms, 1);
    MembersLookup(ms, 2);
    MembersLookup(ms, 3);
    MembersLookup(ms, 4);
    MembersLookup(ms, 5);
    MembersLookup(ms, 6);
  }

  /** Where a submit goes: to the item exactly when a non-empty id is being edited. */
  lemma SubmitTarget(editingId: Option<string>, f: FormData)
    ensures var r := SubmitRequest(editingId, f);
      && (r.verb == "PATCH" <==> Truthy(editingId))
      && (r.verb == "POST" <==> !Truthy(editingId))
      && (Truthy(editingId) ==> r.url == ItemUrl(editingId.value))
      && (!Truthy(editingId) ==> r.url == CollectionUrl)
      && r.body == Some(SubmitBody(f))
  {
  }

  /**
   * Opening an existing item and saving it unchanged sends `null` for an
   * optional text exactly when the item's was `null` or empty, and the
   * item's own text otherwise.
   */
  lemma EditRoundTrip(faq: FaqItem)
    ensures var fs := SubmitBody(EditForm(faq)).fields;
      && (Lookup(fs, "questionRu") == Some(JNull) <==> !Truthy(faq.questionRu))
      && (Lookup(fs, "answerRu") == Some(JNull) <==> !Truthy(faq.answerRu))
      && (Lookup(fs, "category") == Some(JNull) <==> !Truthy(faq.category))
      && (Truthy(faq.questionRu) ==> Lookup(fs, "questionRu") == Some(JStr(faq.questionRu.value)))
      && (Truthy(faq.answerRu) ==> Lookup(fs, "answerRu") == Some(JStr(faq.answerRu.value)))
      && (Truthy(faq.category) ==> Lookup(fs, "category") == Some(JStr(faq.category.value)))
  {
    SubmitBodyLookups(EditForm(faq));
  }

  /** The optional text a form field stands for: none when empty. */
  function TextOf(s: string): (r: Option<string>)
    ensures r.None? <==> s == ""
    ensures r.Some? ==> r.value == s
  {
    if s == "" then None else Some(s)
  }

  /** The input a form stands for once read by a schema that accepts `null`. */
  function InputOf(f: FormData): FaqInput {
    FaqInput(f.question, f.answer, TextOf(f.questionRu), TextOf(f.answerRu), TextOf(f.category), f.sortOrder, f.isActive)
  }

  /**
   * A schema that accepts `null` for the optional texts reads every
   * submitted body with a question and an answer back as the form's input,
   * each empty optional text as no value; one without them it refuses.
   */
  lemma SubmitParses(f: FormData)
    ensures f.question != "" && f.answer != "" ==> ParseFaq(SubmitBody(f)) == Some(InputOf(f))
    ensures f.question == "" || f.answer == "" ==> ParseFaq(SubmitBody(f)).None?
  {
    SubmitBodyLookups(f);
    ReadSubmitted(SubmitBody(f).fields, f);
  }

  /** Any object holding a form's members under their keys reads back as that form's input. */
  lemma ReadSubmitted(fs: Fields, f: FormData)
    requires && Lookup(fs, "question") == Some(JStr(f.question))
             && Lookup(fs, "answer") == Some(JStr(f.answer))
             && Lookup(fs, "questionRu") == Some(NullIfEmpty(f.questionRu))
             && Lookup(fs, "answerRu") == Some(NullIfEmpty(f.answerRu))
             && Lookup(fs, "category") == Some(NullIfEmpty(f.category))
             && Lookup(fs, "sortOrder") == Some(JNum(f.sortOrder))
             && Lookup(fs, "isActive") == Some(JBool(f.isActive))
    ensures f.question != "" && f.answer != "" ==> ParseFaq(JObj(fs)) == Some(InputOf(f))
    ensures f.question == "" || f.answer == "" ==> ParseFaq(JObj(fs)).None?
  {
    assert NullableString(fs, "questionRu") == Some(TextOf(f.questionRu));
    assert NullableString(fs, "answerRu") == Some(TextOf(f.answerRu));
    assert NullableString(fs, "category") == Some(TextOf(f.category));
    assert NumberOr(fs, "sortOrder", 0.0) == Some(f.sortOrder);
    assert BoolOr(fs, "isActive", true) == Some(f.isActive);
    if f.question != "" && f.answer != "" {
      assert RequiredString(fs, "question", 1) == Some(f.question);
      assert RequiredString(fs, "answer", 1) == Some(f.answer);
    }
  }

  /**
   * Saving an existing item unchanged through that schema gives back its
   * row, with an empty optional text stored as `null`: the `null` ↔ ""
   * round trip loses nothing but the difference between `null` and "".
   */
  lemma SaveUnchangedKeepsItem(faq: FaqItem)
    requires faq.question != "" && faq.answer != ""
    ensures var d := ParseFaq(SubmitBody(EditForm(faq)));
      && d.Some?
      && Row(faq.id, d.value) == faq.(questionRu := OrNull(faq.questionRu), answerRu := OrNull(faq.answerRu),
                                   category := OrNull(faq.category))
  {
    SubmitParses(EditForm(faq));
  }

  /**
   * Creating an item through the collection route, as its schema is
   * written, fails whenever an optional text was left empty: the body holds
   * `null` there, and `.optional()` refuses `null`. A new item's form starts
   * with all three empty.
   */
  lemma AsWrittenCreateRefusesEmptyOptional(f: FormData, id: string, available: bool)
    requires f.questionRu == "" || f.answerRu == "" || f.category == ""
    ensures ParseFaqAsWritten(SubmitBody(f)).None?
    ensures AdminCreateAsWritten(true, Some(SubmitBody(f)), id, available) == ValidationError
  {
    SubmitBodyLookups(f);
    ParseFaqMeaning(SubmitBody(f).fields, false);
  }

  /** The same for the form a new item opens with, however its required texts are filled in. */
  lemma AsWrittenNewItemRefused(count: nat, question: string, answer: string, id: string, available: bool)
    ensures var f := NewForm(count).(question := question, answer := answer);
      AdminCreateAsWritten(true, Some(SubmitBody(f)), id, available) == ValidationError
  {
    AsWrittenCreateRefusesEmptyOptional(NewForm(count).(question := question, answer := answer), id, available);
  }

  /**
   * With the optional texts accepting `null`, a new item whose question and
   * answer are filled in is created from exactly what the form holds.
   */
  lemma CreateAcceptsSubmit(f: FormData, id: string)
    requires f.question != "" && f.answer != ""
    ensures AdminCreate(true, Some(SubmitBody(f)), id, true) == Created(Row(id, InputOf(f)))
  {
    SubmitParses(f);
  }

  // ---------------------------------------------------------------- the modal

  /** The table's state: whether the modal is open, the id it edits, its form, and whether a submit is running. */
  class TableState {
    var isModalOpen: bool
    var editingId: Option<string>
    var formData: FormData
    var isSubmitting: bool

    constructor()
      ensures !isModalOpen && editingId.None? && formData == EmptyForm() && !isSubmitting
    {
      isModalOpen, editingId, formData, isSubmitting := false, None, EmptyForm(), false;
    }

    /** `openModal`: an existing item's id and fields, or no id and the new-item form; then open. */
    method OpenModal(faq: Option<FaqItem>, count: nat)
      modifies this
      ensures isModalOpen && isSubmitting == old(isSubmitting)
      ensures faq.Some? ==> editingId == Some(faq.value.id) && formData == EditForm(faq.value)
      ensures faq.None? ==> editingId.None? && formData == NewForm(count)
    {
      if faq.Some? {
        editingId := Some(faq.value.id);
        formData := EditForm(faq.value);
      } else {
        editingId := None;
        formData := NewForm(count);
      }
      isModalOpen := true;
    }

    /** `closeModal`: closed, no id, the empty form. */
    method CloseModal()
      modifies this
      ensures !isModalOpen && editingId.None? && formData == EmptyForm() && isSubmitting == old(isSubmitting)
    {
      isModalOpen := false;
      editingId := None;
      formData := EmptyForm();
    }

    /** Typing into the sort-order input. */
    method SetSortOrder(text: string, parseInt: ParseInt)
      modifies this
      ensures formData == old(formData).(sortOrder := SortOrderInput(text, parseInt))
      ensures isModalOpen == old(isModalOpen) && editingId == old(editingId) && isSubmitting == old(isSubmitting)
    {
      formData := formData.(sortOrder := SortOrderInput(text, parseInt));
    }

    /**
     * `handleSubmit`: the request for the current id and form is sent with
     * `isSubmitting` set. Whenever the request completes, whatever its
     * status, the modal closes and the page refreshes; when it throws,
     * the modal stays as it was. `isSubmitting` is cleared either way.
     */
    method HandleSubmit(fetchThrows: bool) returns (request: Request, submittingDuringFetch: bool, refreshed: bool)
      modifies this
      ensures request == SubmitRequest(old(editingId), old(formData))
      ensures submittingDuringFetch && !isSubmitting
      ensures refreshed <==> !fetchThrows
      ensures !fetchThrows ==> !isModalOpen && editingId.None? && formData == EmptyForm()
      ensures fetchThrows ==> isModalOpen == old(isModalOpen) && editingId == old(editingId) && formData == old(formData)
    {
      isSubmitting := true;
      var url := if Truthy(editingId) then ItemUrl(editingId.value) else CollectionUrl;
      var verb := if Truthy(editingId) then "PATCH" else "POST";
      request := Request(url, verb, Some(SubmitBody(formData)));
      submittingDuringFetch := isSubmitting;
      refreshed := false;
      if !fetchThrows {
        CloseModal();
        refreshed := true;
      }
      isSubmitting := false;
    }
  }
}
