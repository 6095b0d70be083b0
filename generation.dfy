/** The grounded generator: the detail hint, the prompt, the credential check
    and the single completion request. The HTTP exchange itself is a function
    parameter `post`, from a request to the completion text or an error message. */
module Generation {
  import opened Types
  import opened PyStr

  const DetailKeywords: seq<string> := ["explain", "detail", "describe", "how", "why"]

  const DetailDirective: string := "\nThe user wants more explanation. Give a more detailed response."

  /** The fixed instructions that open the prompt, up to the context. */
  const PromptHead: string :=
    "\nYou are a helpful and professional assistant for Expert Soft Solution.\n\n"
    + "Use the context provided below to answer the user's question. Your responses should be "
    + "**complete**, slightly elaborated, and helpful \U{2014} typically 2 to 4 sentences. "
    + "Do not be overly brief. Avoid generic language. Do **not** mention that you're an AI.\n\n"
    + "If the user asks for more detail or explanation, you may expand further.\n\n"
    + "Context:\n"
  const PromptQuestion: string := "\n\nUser Question:\n"
  const PromptTail: string := "\n\nYour Response:"

  const Fallback: string := "Sorry, I couldn't find any relevant information."
  const SystemInstruction: string :=
    "You must only answer based on the provided context. If nothing is relevant, respond with: '"
    + Fallback + "'"

  const Endpoint: string := "https://api.groq.com/openai/v1/chat/completions"
  const DefaultModel: string := "llama3-8b-8192"

  /** Python's `any(word in text for word in keywords)`. */
  function AnyOccurs(keywords: seq<string>, text: string): (b: bool)
    ensures b <==> exists k :: 0 <= k < |keywords| && Occurs(keywords[k], text)
  {
    if keywords == [] then false
    else if Contains(text, keywords[0]) then true
    else
      var b := AnyOccurs(keywords[1..], text);
      assert forall k :: 1 <= k < |keywords| ==> keywords[k] == keywords[1..][k - 1];
      b
  }

  /** The query asks for elaboration: its lower-cased form contains one of the
      detail keywords as a substring. */
  function NeedsDetail(query: string): (b: bool)
    ensures b <==> exists k :: 0 <= k < |DetailKeywords| && Occurs(DetailKeywords[k], Lower(query))
  {
    AnyOccurs(DetailKeywords, Lower(query))
  }

  function PromptTemplate(context: string, query: string): string {
    PromptHead + context + PromptQuestion + query + PromptTail
  }

  /** The user prompt: context and query placed verbatim into the template, and
      the detail directive at the end exactly when the query asks for detail. */
  function Prompt(query: string, context: string): (p: string)
    ensures |p| == |PromptHead| + |context| + |PromptQuestion| + |query| + |PromptTail|
                   + (if NeedsDetail(query) then |DetailDirective| else 0)
    ensures p[..|PromptHead|] == PromptHead
    ensures p[|PromptHead|..][..|context|] == context
    ensures p[|PromptHead| + |context|..][..|PromptQuestion|] == PromptQuestion
    ensures p[|PromptHead| + |context| + |PromptQuestion|..][..|query|] == query
    ensures p[|PromptHead| + |context| + |PromptQuestion| + |query|..][..|PromptTail|] == PromptTail
    ensures EndsWith(p, DetailDirective) <==> NeedsDetail(query)
  {
    var d := NeedsDetail(query);
    PromptLayout(context, query, d);
    PromptEnding(context, query, d);
    PromptTemplate(context, query) + (if d then DetailDirective else "")
  }

  /** Where each piece of the prompt sits: the template's five pieces in order,
      then the directive when asked for. */
  lemma PromptLayout(context: string, query: string, d: bool)
    ensures var p := PromptTemplate(context, query) + (if d then DetailDirective else "");
      && |p| == |PromptHead| + |context| + |PromptQuestion| + |query| + |PromptTail|
                + (if d then |DetailDirective| else 0)
      && p[..|PromptHead|] == PromptHead
      && p[|PromptHead|..][..|context|] == context
      && p[|PromptHead| + |context|..][..|PromptQuestion|] == PromptQuestion
      && p[|PromptHead| + |context| + |PromptQuestion|..][..|query|] == query
      && p[|PromptHead| + |context| + |PromptQuestion| + |query|..][..|PromptTail|] == PromptTail
  {
    Pieces(PromptHead, context, PromptQuestion, query, PromptTail, if d then DetailDirective else "");
  }

  /** Six strings concatenated: each of the first five at the sum of the
      lengths before it. */
  lemma Pieces(a: string, b: string, c: string, q: string, e: string, f: string)
    ensures var p := a + b + c + q + e + f;
      && |p| == |a| + |b| + |c| + |q| + |e| + |f|
      && p[..|a|] == a
      && p[|a|..][..|b|] == b
      && p[|a| + |b|..][..|c|] == c
      && p[|a| + |b| + |c|..][..|q|] == q
      && p[|a| + |b| + |c| + |q|..][..|e|] == e
  {
    var p := a + b + c + q + e + f;
    assert p == a + (b + (c + (q + (e + f))));
    assert p[|a|..] == b + (c + (q + (e + f)));
    assert p[|a| + |b|..] == c + (q + (e + f));
    assert p[|a| + |b| + |c|..] == q + (e + f);
    assert p[|a| + |b| + |c| + |q|..] == e + f;
  }

  /** The prompt ends with the directive exactly when it was appended: the
      template alone ends with `:`, the directive with `.`. */
  lemma PromptEnding(context: string, query: string, d: bool)
    ensures EndsWith(PromptTemplate(context, query) + (if d then DetailDirective else ""), DetailDirective) <==> d
  {
    var t := PromptTemplate(context, query);
    if d {
      var p := t + DetailDirective;
      assert p[|p| - |DetailDirective|..] == DetailDirective;
    } else {
      assert t == (PromptHead + context + PromptQuestion + query) + PromptTail;
      assert t[|t| - 1] == PromptTail[|PromptTail| - 1] == ':';
      assert DetailDirective[|DetailDirective| - 1] == '.';
    }
  }

  /** Two example queries: "Can you explain how this works?" asks for detail,
      "hi" does not. */
  lemma DetailExamples()
    ensures NeedsDetail("Can you explain how this works?")
    ensures !NeedsDetail("hi")
  {
    var q := Lower("Can you explain how this works?");
    assert q[8..][..7] == "explain" by {
      forall i | 0 <= i < 7 ensures q[8..][..7][i] == "explain"[i] {
        assert q[8 + i] == "Can you explain how this works?"[8 + i];
      }
    }
    assert Occurs(DetailKeywords[0], q);
    var h := Lower("hi");
    assert h == "hi";
    forall k | 0 <= k < |DetailKeywords| ensures !Occurs(DetailKeywords[k], h) {
      assert |DetailKeywords[k]| >= 3;
      forall i | 0 <= i <= |h| ensures !(DetailKeywords[k] <= h[i..]) { }
    }
  }

  /** The system directive names the same fallback sentence that chat returns
      when nothing matched. */
  lemma SystemInstructionNamesFallback()
    ensures Occurs(Fallback, SystemInstruction)
  {
    var i := |SystemInstruction| - |Fallback| - 1;
    assert SystemInstruction[i..][..|Fallback|] == Fallback;
  }

  /** One HTTP request to the completion endpoint. */
  datatype Request = Request(url: string, authorization: string, model: string, system: string, user: string)

  /** The outcome of one call, and the requests it sent, in order. */
  datatype Exchange = Exchange(reply: Result<string, ChatError>, sent: seq<Request>)

  /** `not api_key`: no credential configured, or an empty one. */
  predicate KeyMissing(apiKey: Option<string>) {
    apiKey.None? || apiKey.value == ""
  }

  /** The request for a query and its context, or MissingApiKey when no
      credential is configured. */
  function BuildRequest(apiKey: Option<string>, query: string, context: string, model: string): (r: Result<Request, ChatError>)
    ensures r.Failure? <==> KeyMissing(apiKey)
    ensures r.Failure? ==> r.error == MissingApiKey
    ensures r.Success? ==>
      && r.value.url == Endpoint && r.value.model == model
      && r.value.authorization == "Bearer " + apiKey.value
      && r.value.system == SystemInstruction
      && r.value.user == Prompt(query, context)
  {
    if KeyMissing(apiKey) then Failure(MissingApiKey)
    else Success(Request(Endpoint, "Bearer " + apiKey.value, model, SystemInstruction, Prompt(query, context)))
  }

  /** `ask_groq`: without a credential it fails before anything is sent;
      otherwise it sends exactly one request and returns the completion text,
      stripped, or the upstream error. */
  function AskGroq(apiKey: Option<string>, query: string, context: string, model: string,
                   post: Request -> Result<string, string>): (x: Exchange)
    ensures KeyMissing(apiKey) ==> x == Exchange(Failure(MissingApiKey), [])
    ensures !KeyMissing(apiKey) ==>
      && |x.sent| == 1
      && x.sent[0] == BuildRequest(apiKey, query, context, model).value
      && (x.reply.Success? <==> post(x.sent[0]).Success?)
      && (x.reply.Success? ==> x.reply.value == Strip(post(x.sent[0]).value))
      && (x.reply.Failure? ==> x.reply.error == Upstream(post(x.sent[0]).error))
  {
    match BuildRequest(apiKey, query, context, model)
    case Failure(e) => Exchange(Failure(e), [])
    case Success(req) =>
      match post(req)
      case Failure(msg) => Exchange(Failure(Upstream(msg)), [req])
      case Success(content) => Exchange(Success(Strip(content)), [req])
  }
}
