/**
 * The site's chat widget: the locale fallback of an FAQ's texts, the
 * single-open accordion, when the FAQ list is fetched and when the contact
 * call to action shows.
 */
module ChatWidget {
  import opened Wrappers
  import opened Strings
  import opened Faq

  /** `getQuestion`: the Russian question in the "ru" locale when it is non-empty, else the English one. */
  function GetQuestion(faq: PublicFaq, locale: string): (r: string)
    ensures locale == "ru" && Truthy(faq.questionRu) ==> r == faq.questionRu.value
    ensures !(locale == "ru" && Truthy(faq.questionRu)) ==> r == faq.question
  {
    if locale == "ru" && Truthy(faq.questionRu) then faq.questionRu.value else faq.question
  }

  /** `getAnswer`: the same fallback for the answer. */
  function GetAnswer(faq: PublicFaq, locale: string): (r: string)
    ensures locale == "ru" && Truthy(faq.answerRu) ==> r == faq.answerRu.value
    ensures !(locale == "ru" && Truthy(faq.answerRu)) ==> r == faq.answer
  {
    if locale == "ru" && Truthy(faq.answerRu) then faq.answerRu.value else faq.answer
  }

  /**
   * Every item the public read lists shows a non-empty question and
   * answer in any locale when its row was created through the admin
   * schema, which demands a non-empty English question and answer.
   */
  lemma NeverBlank(faq: PublicFaq, locale: string)
    requires faq.question != "" && faq.answer != ""
    ensures GetQuestion(faq, locale) != "" && GetAnswer(faq, locale) != ""
    ensures locale != "ru" ==> GetQuestion(faq, locale) == faq.question && GetAnswer(faq, locale) == faq.answer
  {
  }

  /** `toggleFaq`: the open id collapses, any other id opens in its place. */
  function Toggle(expanded: Option<string>, id: string): (r: Option<string>)
    ensures r == Some(id) <==> expanded != Some(id)
    ensures r.None? <==> expanded == Some(id)
  {
    if expanded == Some(id) then None else Some(id)
  }

  /** Clicking one item twice: if it was the open one it is open again, otherwise nothing is left open. */
  lemma ToggleTwice(expanded: Option<string>, id: string)
    ensures expanded == Some(id) ==> Toggle(Toggle(expanded, id), id) == Some(id)
    ensures expanded != Some(id) ==> Toggle(Toggle(expanded, id), id).None?
  {
  }

  // ---------------------------------------------------------------- the fetched list

  /**
   * What `fetch("/api/faq").then((res) => res.json())` gives the widget: a
   * rejected promise (no connection, or a body that is not JSON), the list
   * of a 200 reply, or the `{ error }` object of a 500 reply.
   */
  datatype FaqResponse = Rejected | FaqList(items: seq<PublicFaq>) | ErrorObject(error: string)

  /** The public endpoint's reply as the widget receives it. */
  function ServerResponse(items: seq<FaqItem>, available: bool): (r: FaqResponse)
    ensures r.ErrorObject? <==> !available
    ensures r.ErrorObject? ==> r.error == "Failed to fetch FAQ"
    ensures r.FaqList? ==> r.items == ProjectAll(SortBySortOrder(ActiveOnly(items)))
    ensures !r.Rejected?
  {
    match PublicRead(items, available)
    case Ok(list) => FaqList(list)
    case Err(e) => ErrorObject(e)
  }

  /** The `faqs` state: an array, or whatever other JSON value `setFaqs` was handed. */
  datatype Faqs = FaqArray(items: seq<PublicFaq>) | FaqObject(error: string)

  /** The effect's condition `isOpen && faqs.length === 0`; an object has no `length`, so it never holds for one. */
  predicate FetchWanted(isOpen: bool, faqs: Faqs) {
    isOpen && faqs.FaqArray? && |faqs.items| == 0
  }

  /** The list part renders: `faqs.map` exists only on an array. */
  predicate ListRenders(faqs: Faqs) {
    faqs.FaqArray?
  }

  /** What the effect stores as written: `setFaqs(data)` takes any JSON body; a rejection is only logged. */
  function StoredAsWritten(faqs: Faqs, response: FaqResponse): (r: Faqs)
    ensures response.FaqList? ==> r == FaqArray(response.items)
    ensures response.ErrorObject? ==> r == FaqObject(response.error)
    ensures response.Rejected? ==> r == faqs
  {
    match response
    case Rejected => faqs
    case FaqList(items) => FaqArray(items)
    case ErrorObject(e) => FaqObject(e)
  }

  /** What the effect stores once it checks `res.ok`: a 500 reply is treated as a failure and the list stays. */
  function StoredChecked(faqs: Faqs, response: FaqResponse): (r: Faqs)
    ensures response.FaqList? ==> r == FaqArray(response.items)
    ensures !response.FaqList? ==> r == faqs
  {
    if response.FaqList? then FaqArray(response.items) else faqs
  }

  /**
   * As written, a store failure breaks the open widget for good: the error
   * object is stored, the list can no longer render, and the effect's
   * condition is false, so the list is never requested again.
   */
  lemma AsWrittenErrorBreaksWidget(items: seq<FaqItem>)
    ensures var f := StoredAsWritten(FaqArray([]), ServerResponse(items, false));
      && !ListRenders(f)
      && !FetchWanted(true, f)
      && forall r: FaqResponse :: r.Rejected? ==> StoredAsWritten(f, r) == f
  {
  }

  /**
   * With the `res.ok` check, every response keeps an array in the state,
   * so the list part always renders; after a store failure the list is
   * still empty and the open widget asks again; a served list is the
   * endpoint's active items in order.
   */
  lemma CheckedKeepsWidget(faqs: Faqs, items: seq<FaqItem>, available: bool)
    requires ListRenders(faqs)
    ensures ListRenders(StoredChecked(faqs, ServerResponse(items, available)))
    ensures !available ==> StoredChecked(FaqArray([]), ServerResponse(items, available)) == FaqArray([])
    ensures !available ==> FetchWanted(true, StoredChecked(FaqArray([]), ServerResponse(items, available)))
    ensures available ==> StoredChecked(faqs, ServerResponse(items, available)) == FaqArray(PublicRead(items, true).value)
  {
  }

  /** The two versions differ only on the 500 reply: for a list or a rejection they store the same. */
  lemma StoredAgreeOffError(faqs: Faqs, response: FaqResponse)
    requires !response.ErrorObject?
    ensures StoredAsWritten(faqs, response) == StoredChecked(faqs, response)
  {
  }

  // ---------------------------------------------------------------- the component

  /** The widget's state. */
  class Widget {
    var isOpen: bool
    var faqs: Faqs
    var expandedId: Option<string>
    var showForm: bool

    constructor()
      ensures !isOpen && faqs == FaqArray([]) && expandedId.None? && !showForm
    {
      isOpen, faqs, expandedId, showForm := false, FaqArray([]), None, false;
    }

    /** The effect's condition: fetch when open and nothing is loaded yet. */
    predicate ShouldFetch()
      reads this
    {
      FetchWanted(isOpen, faqs)
    }

    /** The loading indicator: the list part is shown and the array is empty. */
    predicate ShowsLoading()
      reads this
    {
      isOpen && !showForm && faqs.FaqArray? && |faqs.items| == 0
    }

    /** The contact call to action: the list part is shown and the array is not empty. */
    predicate ShowsCta()
      reads this
    {
      isOpen && !showForm && faqs.FaqArray? && |faqs.items| > 0
    }

    /** The list part is shown but holds no array, so `faqs.map` throws and nothing renders. */
    predicate RenderFails()
      reads this
    {
      isOpen && !showForm && !ListRenders(faqs)
    }

    /** The answer of the item at `i` is shown exactly when its id is the expanded one. */
    predicate AnswerShown(i: nat)
      reads this
    {
      isOpen && !showForm && faqs.FaqArray? && i < |faqs.items| && expandedId == Some(faqs.items[i].id)
    }

    /** The list part shows exactly one of the loading indicator, the call to action and a render failure. */
    lemma LoadingOrCta()
      requires isOpen && !showForm
      ensures !RenderFails() ==> ShowsLoading() != ShowsCta()
      ensures RenderFails() ==> !ShowsLoading() && !ShowsCta()
      ensures RenderFails() <==> faqs.FaqObject?
    {
    }

    /** With distinct ids, at most one answer is shown at a time: the one of the expanded id. */
    lemma AtMostOneAnswer(i: nat)
      requires faqs.FaqArray?
      requires forall a, b :: 0 <= a < b < |faqs.items| ==> faqs.items[a].id != faqs.items[b].id
      requires AnswerShown(i)
      ensures forall j: nat :: j != i ==> !AnswerShown(j)
    {
      var xs := faqs.items;
      forall j: nat | j != i && j < |xs| ensures xs[j].id != xs[i].id {
        if j < i {
          assert xs[j].id != xs[i].id;
        } else {
          assert xs[i].id != xs[j].id;
        }
      }
    }

    /** The closed button opens the widget. */
    method Open()
      modifies this
      ensures isOpen && faqs == old(faqs) && expandedId == old(expandedId) && showForm == old(showForm)
    {
      isOpen := true;
    }

    /** The header's close button. */
    method Close()
      modifies this
      ensures !isOpen && faqs == old(faqs) && expandedId == old(expandedId) && showForm == old(showForm)
    {
      isOpen := false;
    }

    /** Clicking an item's question. */
    method ToggleFaq(id: string)
      modifies this
      ensures expandedId == Toggle(old(expandedId), id)
      ensures isOpen == old(isOpen) && faqs == old(faqs) && showForm == old(showForm)
    {
      expandedId := if expandedId == Some(id) then None else Some(id);
    }

    /** The call to action opens the inquiry form. */
    method ShowForm()
      modifies this
      ensures showForm && isOpen == old(isOpen) && faqs == old(faqs) && expandedId == old(expandedId)
    {
      showForm := true;
    }

    /** The inquiry form's back button returns to the list. */
    method Back()
      modifies this
      ensures !showForm && isOpen == old(isOpen) && faqs == old(faqs) && expandedId == old(expandedId)
    {
      showForm := false;
    }

    /**
     * The fetch effect as written: when its condition holds the list is
     * requested (`fetched`) and `setFaqs` stores whatever JSON came back,
     * the error object of a 500 reply included; a rejection is logged and
     * changes nothing.
     */
    method Effect(response: FaqResponse) returns (fetched: bool)
      modifies this
      ensures fetched <==> old(ShouldFetch())
      ensures faqs == if fetched then StoredAsWritten(old(faqs), response) else old(faqs)
      ensures isOpen == old(isOpen) && expandedId == old(expandedId) && showForm == old(showForm)
    {
      fetched := isOpen && faqs.FaqArray? && |faqs.items| == 0;
      if fetched {
        match response
        case Rejected =>
        case FaqList(items) => faqs := FaqArray(items);
        case ErrorObject(e) => faqs := FaqObject(e);
      }
    }

    /** The fetch effect with the `res.ok` check: only a list is stored. */
    method EffectChecked(response: FaqResponse) returns (fetched: bool)
      modifies this
      ensures fetched <==> old(ShouldFetch())
      ensures faqs == if fetched then StoredChecked(old(faqs), response) else old(faqs)
      ensures isOpen == old(isOpen) && expandedId == old(expandedId) && showForm == old(showForm)
    {
      fetched := isOpen && faqs.FaqArray? && |faqs.items| == 0;
      if fetched && response.FaqList? {
        faqs := FaqArray(response.items);
      }
    }
  }
}
