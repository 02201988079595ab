/** The keyword chatbot: its answer table, the first-match responder, and the
    chat window's message list. */
module Chatbot {
  import opened JsValues
  import I18n

  /** A row of the answer table: any of `keywords` selects `answerKey`. */
  datatype Entry = Entry(keywords: seq<string>, answerKey: string)

  const GreetingKey := "chatbot.greeting"
  const GreetingAnswer := "chatbot.answers.greeting"
  const DefaultAnswer := "chatbot.answers.default"

  /** The rows of the answer table, in the order they are scanned. */
  function Row(i: nat): Entry
    requires i < 30
  {
    match i
    case 0 => Entry(["hola", "buenos", "buenas", "hello", "good morning", "hi"], GreetingAnswer)
    case 1 => Entry(["quiénes son", "que es", "a qué se dedican", "about", "who are you", "what is"], "chatbot.answers.whoAreYou")
    case 2 => Entry(["servicios", "ayudan", "hacen", "services", "what do you do"], "chatbot.answers.servicesOffered")
    case 3 => Entry(["ciudades", "operan", "dónde", "cities", "where", "operate"], "chatbot.answers.operatingCities")
    case 4 => Entry(["contacto", "teléfono", "llamar", "dirección", "email", "contact", "phone", "address"], "chatbot.answers.contactInfo")
    case 5 => Entry(["lema", "slogan"], "chatbot.answers.slogan")
    case 6 => Entry(["horario", "atienden", "abren", "hours", "open"], "chatbot.answers.hours")
    case 7 => Entry(["misión", "visión", "valores", "mission", "vision", "values"], "chatbot.answers.missionVision")
    case 8 => Entry(["administración", "incluye", "management", "includes"], "chatbot.answers.adminServiceIncludes")
    case 9 => Entry(["reparaciones", "locativas", "repairs"], "chatbot.answers.locativeRepairs")
    case 10 => Entry(["cuota de administración", "pago de cuota", "admin fee payment"], "chatbot.answers.adminFeePayment")
    case 11 => Entry(["honorarios", "costo", "tarifa", "fees", "cost", "rate"], "chatbot.answers.adminServiceFee")
    case 12 => Entry(["afianza", "costo afianza", "guarantee fee"], "chatbot.answers.guaranteeFee")
    case 13 => Entry(["cuándo pagan", "pago del canon", "cuando me pagan", "payment schedule", "when do i get paid"], "chatbot.answers.paymentSchedule")
    case 14 => Entry(["débitos", "descuentan", "debits", "deductions"], "chatbot.answers.monthlyDebits")
    case 15 => Entry(["iva", "retenciones", "impuestos", "vat", "retentions", "taxes"], "chatbot.answers.vatAndRetentions")
    case 16 => Entry(["documentos persona natural", "docs natural person"], "chatbot.answers.docsNaturalPerson")
    case 17 => Entry(["documentos persona jurídica", "docs legal entity"], "chatbot.answers.docsLegalEntity")
    case 18 => Entry(["líneas telefónicas", "phone lines"], "chatbot.answers.phoneLinesPolicy")
    case 19 => Entry(["estudio", "afianzadora", "datafianza", "guarantee study"], "chatbot.answers.guaranteeStudyPayer")
    case 20 => Entry(["incremento vivienda", "aumento canon", "rent increase housing"], "chatbot.answers.rentIncreaseHousing")
    case 21 => Entry(["incremento comercial", "increase commercial"], "chatbot.answers.rentIncreaseCommercial")
    case 22 => Entry(["incremento cuota de administración", "increase admin fee"], "chatbot.answers.adminFeeIncrease")
    case 23 => Entry(["rut", "cambios tributarios", "tax changes"], "chatbot.answers.taxInfoUpdate")
    case 24 => Entry(["fallece", "fallecimiento", "muerte arrendatario", "tenant death"], "chatbot.answers.tenantDeath")
    case 25 => Entry(["pautar", "publicar para venta", "list for sale"], "chatbot.answers.infoForSaleListing")
    case 26 => Entry(["comisión", "comision por venta", "sales commission"], "chatbot.answers.saleCommission")
    case 27 => Entry(["vender", "venda", "propiedad", "sell", "property"], "chatbot.answers.sell")
    case 28 => Entry(["arrendar", "arriendo", "alquilar", "rent", "lease"], "chatbot.answers.rent")
    case _ => Entry(["gracias", "ok", "listo", "thanks", "thank you"], "chatbot.answers.thanks")
  }

  /** The answer table. */
  function KnowledgeBase(): (kb: seq<Entry>)
    ensures |kb| == 30
    ensures forall i :: 0 <= i < 30 ==> kb[i] == Row(i)
  {
    seq(30, i requires 0 <= i < 30 => Row(i))
  }

  // ------------------------------------------------------------ responder

  /** Some keyword of the row occurs in the input. */
  predicate Mentions(input: string, keywords: seq<string>) {
    exists k :: 0 <= k < |keywords| && Contains(input, keywords[k])
  }

  /** The first row, in table order, whose keywords the input mentions. */
  function FirstMatch(kb: seq<Entry>, input: string): (r: Option<nat>)
    ensures r.Some? ==> r.value < |kb| && Mentions(input, kb[r.value].keywords)
    ensures r.Some? ==> forall j :: 0 <= j < r.value ==> !Mentions(input, kb[j].keywords)
    ensures r.None? <==> forall j :: 0 <= j < |kb| ==> !Mentions(input, kb[j].keywords)
  {
    if kb == [] then None
    else if Mentions(input, kb[0].keywords) then Some(0)
    else
      match FirstMatch(kb[1..], input)
      case None =>
        assert forall j :: 1 <= j < |kb| ==> kb[j] == kb[1..][j - 1];
        None
      case Some(i) =>
        assert forall j :: 1 <= j <= i ==> kb[j] == kb[1..][j - 1];
        Some(i + 1)
  }

  /** The answer key for an input: the first matching row's, matching on the
      lower-cased input, or the default one. */
  function AnswerKey(input: string): string {
    match FirstMatch(KnowledgeBase(), ToLower(input))
    case Some(i) => KnowledgeBase()[i].answerKey
    case None => DefaultAnswer
  }

  /** A row that matches after rows that do not is the first match. */
  lemma FirstMatchAt(kb: seq<Entry>, input: string, i: nat)
    requires i < |kb| && Mentions(input, kb[i].keywords)
    requires forall j :: 0 <= j < i ==> !Mentions(input, kb[j].keywords)
    ensures FirstMatch(kb, input) == Some(i)
  {
    var r := FirstMatch(kb, input);
    assert r.Some?;
    assert !(r.value < i);
    assert !(i < r.value);
  }

  /** The scan of `generateResponse`: the rows in order, and in each row its
      keywords in order, stopping at the first keyword the input contains. */
  method Scan(kb: seq<Entry>, lowerInput: string) returns (r: Option<nat>)
    ensures r == FirstMatch(kb, lowerInput)
  {
    var i := 0;
    while i < |kb|
      invariant 0 <= i <= |kb|
      invariant forall j :: 0 <= j < i ==> !Mentions(lowerInput, kb[j].keywords)
    {
      var entry := kb[i];
      var k := 0;
      while k < |entry.keywords|
        invariant 0 <= k <= |entry.keywords|
        invariant forall q :: 0 <= q < k ==> !Contains(lowerInput, entry.keywords[q])
      {
        if ContainsScan(lowerInput, entry.keywords[k]) {
          FirstMatchAt(kb, lowerInput, i);
          return Some(i);
        }
        k := k + 1;
      }
      i := i + 1;
    }
    return None;
  }

  /** `generateResponse`: the translation of the first matching row's answer
      for the lower-cased input, or of the default answer. */
  method GenerateResponse(tr: I18n.Translations, lang: I18n.Language, input: string) returns (text: string)
    ensures text == I18n.T(tr, lang, AnswerKey(input), None)
  {
    var found := Scan(KnowledgeBase(), ToLower(input));
    if found.Some? {
      text := I18n.T(tr, lang, KnowledgeBase()[found.value].answerKey, None);
    } else {
      text := I18n.T(tr, lang, DefaultAnswer, None);
    }
  }

  /** Matching ignores case: the input is lower-cased before the scan. */
  lemma AnswerIgnoresCase(input: string)
    ensures AnswerKey(ToLower(input)) == AnswerKey(input)
  {
    ToLowerIdempotent(input);
  }

  /** An input with a greeting keyword gets the greeting, whatever else it
      says, since the greeting row comes first. */
  lemma GreetingWins(input: string, k: nat)
    requires k < |KnowledgeBase()[0].keywords| && Contains(ToLower(input), KnowledgeBase()[0].keywords[k])
    ensures AnswerKey(input) == GreetingAnswer
  {
    FirstMatchAt(KnowledgeBase(), ToLower(input), 0);
  }

  /** Any input containing `hola` is greeted. */
  lemma HolaGreets(input: string)
    requires Contains(ToLower(input), "hola")
    ensures AnswerKey(input) == GreetingAnswer
  {
    GreetingWins(input, 0);
  }

  /** Keywords are substrings, not words: any input containing `hi` is
      greeted too. */
  lemma HiGreets(input: string)
    requires Contains(ToLower(input), "hi")
    ensures AnswerKey(input) == GreetingAnswer
  {
    GreetingWins(input, 5);
  }

  /** So a question about cities is answered with the greeting when a word
      such as `which` carries `hi` inside it. */
  lemma EmbeddedHiGreets(before: string, after: string)
    ensures AnswerKey(before + "hi" + after) == GreetingAnswer
  {
    var input := before + "hi" + after;
    var lower := ToLower(input);
    assert input[|before|] == 'h' && input[|before| + 1] == 'i';
    assert lower[|before|..|before| + 2] == "hi";
    assert OccursAt(lower, "hi", |before|);
    HiGreets(input);
  }

  /** No keyword of any row in the input: the default answer. */
  lemma NoKeywordDefault(input: string)
    requires forall j, k :: 0 <= j < |KnowledgeBase()| && 0 <= k < |KnowledgeBase()[j].keywords| ==>
      !Contains(ToLower(input), KnowledgeBase()[j].keywords[k])
    ensures AnswerKey(input) == DefaultAnswer
  {
  }

  // ------------------------------------------------------------ chat window

  datatype Message = Message(id: string, text: string, isBot: bool)

  /** No message from the visitor is blank. */
  predicate NoBlankVisitorText(msgs: seq<Message>) {
    forall m :: m in msgs && !m.isBot ==> !IsBlank(m.text)
  }

  lemma AppendKeepsNoBlank(msgs: seq<Message>, m: Message)
    requires NoBlankVisitorText(msgs) && (m.isBot || !IsBlank(m.text))
    ensures NoBlankVisitorText(msgs + [m])
  {
    forall x | x in msgs + [m] && !x.isBot ensures !IsBlank(x.text) {
      assert x in msgs || x == m;
    }
  }

  /** A reply waiting for its one-second timer: the text sent and the
      language of the moment of sending, both captured by the callback. */
  datatype Pending = Pending(input: string, language: I18n.Language)

  /** The chat window's state. `isOpen` and the language belong to the page
      and reach the window as inputs; `pending` holds the replies whose timer has
      not fired yet, oldest first. */
  class ChatbotAura {
    const tr: I18n.Translations
    var language: I18n.Language
    var isOpen: bool
    var messages: seq<Message>
    var inputValue: string
    var pending: seq<Pending>

    /** The transcript never holds a blank message from the visitor. */
    predicate Valid()
      reads this
    {
      NoBlankVisitorText(messages)
    }

    /** The single message the window starts from when it opens. */
    function Greeting(): Message
      reads this
    {
      Message("1", I18n.T(tr, language, GreetingKey, None), true)
    }

    constructor(tr: I18n.Translations, language: I18n.Language)
      ensures this.tr == tr && this.language == language
      ensures !isOpen && messages == [] && inputValue == "" && pending == []
      ensures Valid()
    {
      this.tr := tr;
      this.language := language;
      isOpen := false;
      messages := [];
      inputValue := "";
      pending := [];
    }

    /** The toggle; opening the window resets it to the greeting. */
    method SetOpen(open: bool)
      requires Valid()
      modifies this
      ensures isOpen == open
      ensures messages == if open && !old(isOpen) then [old(Greeting())] else old(messages)
      ensures language == old(language) && inputValue == old(inputValue) && pending == old(pending)
      ensures Valid()
    {
      if open && !isOpen {
        messages := [Greeting()];
      }
      isOpen := open;
    }

    /** The page mounts the window afresh: `messages` and `inputValue` start
        empty, and the `[t, isOpen]` effect then shows the greeting when the
        window is mounted open. */
    method Mount(open: bool)
      modifies this
      ensures isOpen == open
      ensures messages == (if open then [Greeting()] else [])
      ensures inputValue == "" && pending == []
      ensures language == old(language)
      ensures Valid()
    {
      isOpen := open;
      messages := if open then [Greeting()] else [];
      inputValue := "";
      pending := [];
    }

    /** The page unmounts the window: its transcript and its input are
        discarded, and a reply still waiting on its timer never arrives. */
    method Unmount()
      modifies this
      ensures messages == [] && inputValue == "" && pending == []
      ensures isOpen == old(isOpen) && language == old(language)
      ensures Valid()
    {
      messages := [];
      inputValue := "";
      pending := [];
    }

    /** A language change while the window is open resets it to the greeting
        in the new language. */
    method SetLanguage(lang: I18n.Language)
      requires Valid()
      modifies this
      ensures language == lang
      ensures messages == if lang != old(language) && isOpen then [Greeting()] else old(messages)
      ensures isOpen == old(isOpen) && inputValue == old(inputValue) && pending == old(pending)
      ensures Valid()
    {
      var changed := lang != language;
      language := lang;
      if changed && isOpen {
        messages := [Greeting()];
      }
    }

    method HandleInputChange(value: string)
      modifies this
      ensures inputValue == value
      ensures messages == old(messages) && pending == old(pending)
      ensures isOpen == old(isOpen) && language == old(language)
    {
      inputValue := value;
    }

    /** `handleSendMessage`: blank input does nothing; otherwise the visitor's
        message is appended, its reply is queued behind the timer, and the
        input field is cleared. `now` is the clock reading that names the
        message. */
    method HandleSendMessage(now: nat)
      requires Valid()
      modifies this
      ensures IsBlank(old(inputValue)) ==>
        messages == old(messages) && inputValue == old(inputValue) && pending == old(pending)
      ensures !IsBlank(old(inputValue)) ==>
        && messages == old(messages) + [Message(NatToString(now), old(inputValue), false)]
        && pending == old(pending) + [Pending(old(inputValue), language)]
        && inputValue == ""
      ensures isOpen == old(isOpen) && language == old(language)
      ensures Valid()
    {
      var text := inputValue;
      TrimEmptyIffBlank(text);
      if Trim(text) == [] {
        return;
      }
      var sent := Message(NatToString(now), text, false);
      AppendKeepsNoBlank(messages, sent);
      messages := messages + [sent];
      pending := pending + [Pending(text, language)];
      inputValue := "";
    }

    /** The timer of the oldest queued reply fires: the answer to the text
        it captured, in the language it captured, is appended as the bot's
        message, named by the clock reading at that moment plus one. */
    method DeliverReply(now: nat)
      requires Valid() && pending != []
      modifies this
      ensures messages == old(messages) +
        [Message(NatToString(now + 1), I18n.T(tr, old(pending[0].language), AnswerKey(old(pending[0].input)), None), true)]
      ensures pending == old(pending[1..])
      ensures isOpen == old(isOpen) && language == old(language) && inputValue == old(inputValue)
      ensures Valid()
    {
      var due := pending[0];
      var reply := GenerateResponse(tr, due.language, due.input);
      var answer := Message(NatToString(now + 1), reply, true);
      AppendKeepsNoBlank(messages, answer);
      messages := messages + [answer];
      pending := pending[1..];
    }
  }
}
