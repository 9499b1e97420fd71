/**
 * The strings `generate_proposal` and `save_proposal_with_embedding` build
 * (proposals/ai_service.py:66-136): the retrieval query, the block of similar
 * examples, the prompt, the chat request, and the text kept when the
 * language model fails.
 */
module Prompt {
  import opened Seqs
  import opened Models

  /** The form fields the view passes in (proposals/views.py:16-23). */
  datatype ProjectData = ProjectData(
    projectTitle: string,
    projectDescription: string,
    requirements: string,
    budget: string,
    timeline: string,
    clientName: string)

  /** Number of past proposals retrieved as examples. */
  const SimilarCount: int := 2
  /** Characters of each example's generated text shown in the prompt. */
  const ExcerptLength: nat := 300

  /** Text embedded to search for similar proposals: the title, one space, the description. */
  function QueryText(d: ProjectData): (q: string)
    ensures |q| == |d.projectTitle| + 1 + |d.projectDescription|
    ensures q[..|d.projectTitle|] == d.projectTitle
    ensures q[|d.projectTitle|] == ' '
    ensures q[|d.projectTitle| + 1..] == d.projectDescription
  {
    d.projectTitle + " " + d.projectDescription
  }

  /** Text embedded when a proposal is saved: title, description and generated text, separated by one space. */
  function CombinedText(p: Proposal, generated: string): (c: string)
    ensures var t, d := |p.projectTitle|, |p.projectDescription|;
      && |c| == t + 1 + d + 1 + |generated|
      && c[..t] == p.projectTitle
      && c[t] == ' '
      && c[t + 1..t + 1 + d] == p.projectDescription
      && c[t + 1 + d] == ' '
      && c[t + d + 2..] == generated
  {
    p.projectTitle + " " + p.projectDescription + " " + generated
  }

  /** Python's `text[:300]`. */
  function Excerpt(text: string): (e: string)
    ensures |e| == Min(|text|, ExcerptLength)
    ensures e == text[..|e|]
  {
    if |text| <= ExcerptLength then text else text[..ExcerptLength]
  }

  const ContextHeader: string := "\n\nHere are some similar past proposals for reference:\n"

  /** Example number `n` for one retrieved proposal. */
  function ExampleBlock(n: nat, p: Proposal): (block: string)
    ensures "\n--- Example " + NatToString(n) + " ---\n" <= block
    ensures |block| >= 4 && block[|block| - 4..] == "...\n"
  {
    "\n--- Example " + NatToString(n) + " ---\n"
    + "Project: " + p.projectTitle + "\n"
    + "Proposal excerpt: " + Excerpt(p.generatedProposal) + "...\n"
  }

  /** Example `n` shows the proposal's title, and its excerpt followed by "...". */
  lemma ExampleBlockShows(n: nat, p: Proposal)
    ensures var block := ExampleBlock(n, p);
      && IsInfix(p.projectTitle, block)
      && IsInfix(Excerpt(p.generatedProposal) + "...\n", block)
  {
    var head := "\n--- Example " + NatToString(n) + " ---\n" + "Project: ";
    var excerpt := Excerpt(p.generatedProposal);
    var tail := "\n" + "Proposal excerpt: " + excerpt + "...\n";
    assert ExampleBlock(n, p) == head + p.projectTitle + tail;
    InfixOfConcat(head, p.projectTitle, tail);
    var front := head + p.projectTitle + "\n" + "Proposal excerpt: ";
    assert ExampleBlock(n, p) == front + (excerpt + "...\n") + [];
    InfixOfConcat(front, excerpt + "...\n", []);
  }

  /** The example blocks for `ps`, numbered from `first`. */
  function ExampleBlocks(ps: seq<Proposal>, first: nat): (bs: seq<string>)
    ensures |bs| == |ps|
  {
    seq(|ps|, i requires 0 <= i < |ps| => ExampleBlock(first + i, ps[i]))
  }

  /** The context slot of the prompt: nothing when no example was found. */
  function Context(similar: seq<Proposal>): (c: string)
    ensures c == "" <==> similar == []
  {
    if similar == [] then "" else ContextHeader + Concat(ExampleBlocks(similar, 1))
  }

  /** The first i blocks are the blocks of the first i proposals. */
  lemma ExampleBlocksPrefix(ps: seq<Proposal>, first: nat, i: nat)
    requires i <= |ps|
    ensures ExampleBlocks(ps, first)[..i] == ExampleBlocks(ps[..i], first)
  {
    var l, r := ExampleBlocks(ps, first)[..i], ExampleBlocks(ps[..i], first);
    forall j | 0 <= j < i ensures l[j] == r[j] {
      assert ps[..i][j] == ps[j];
    }
  }

  /** The blocks from position i on are the blocks of the rest, numbered on from i. */
  lemma ExampleBlocksSuffix(ps: seq<Proposal>, first: nat, i: nat)
    requires i <= |ps|
    ensures ExampleBlocks(ps, first)[i..] == ExampleBlocks(ps[i..], first + i)
  {
    var l, r := ExampleBlocks(ps, first)[i..], ExampleBlocks(ps[i..], first + i);
    forall j | 0 <= j < |ps| - i ensures l[j] == r[j] {
      assert ps[i..][j] == ps[i + j];
    }
  }

  /**
   * The i-th retrieved proposal (from 0) appears as example number i + 1,
   * between the examples before it and those after it.
   */
  lemma ContextHasExample(similar: seq<Proposal>, i: nat)
    requires i < |similar|
    ensures Context(similar) ==
      ContextHeader + (Concat(ExampleBlocks(similar[..i], 1)) + ExampleBlock(i + 1, similar[i])
      + Concat(ExampleBlocks(similar[i + 1..], i + 2)))
  {
    var bs := ExampleBlocks(similar, 1);
    var before, here, after := ExampleBlocks(similar[..i], 1), ExampleBlock(i + 1, similar[i]), ExampleBlocks(similar[i + 1..], i + 2);
    ConcatHasPart(bs, i);
    ExampleBlocksPrefix(similar, 1, i);
    ExampleBlocksSuffix(similar, 1, i + 1);
    assert bs[i] == here;
    assert Concat(bs) == Concat(before) + here + Concat(after);
    assert Context(similar) == ContextHeader + Concat(bs);
  }

  /** The loop that builds the context with `+=`, numbering examples from 1. */
  method AssembleContext(similar: seq<Proposal>) returns (context: string)
    ensures context == Context(similar)
  {
    context := "";
    if similar != [] {
      context := ContextHeader;
      for i := 0 to |similar|
        invariant context == ContextHeader + Concat(ExampleBlocks(similar[..i], 1))
      {
        var bs := ExampleBlocks(similar[..i + 1], 1);
        assert bs[..i] == ExampleBlocks(similar[..i], 1);
        assert bs[i] == ExampleBlock(i + 1, similar[i]);
        assert Concat(bs) == Concat(bs[..i]) + bs[i];
        AppendAssoc(ContextHeader, Concat(bs[..i]), bs[i]);
        context := context + ExampleBlock(i + 1, similar[i]);
      }
      assert similar[..|similar|] == similar;
    }
  }

  const PromptIntro: string :=
    "You are a professional proposal writer. Generate a detailed, persuasive project proposal based on the following information:\n\n"

  const SectionsInstruction: string :=
    "\n\nGenerate a professional proposal with the following sections:\n"
    + "1. Executive Summary\n"
    + "2. Understanding of Requirements\n"
    + "3. Proposed Solution\n"
    + "4. Timeline and Milestones\n"
    + "5. Budget Breakdown\n"
    + "6. Why Choose Us\n"
    + "7. Next Steps\n\n"
    + "Make it persuasive, professional, and tailored to the specific project needs."

  /** The pieces of the prompt before the context slot: the request's own fields. */
  function PromptFields(d: ProjectData): seq<string>
  {
    [ PromptIntro,
      "Project Title: ", d.projectTitle, "\n",
      "Project Description: ", d.projectDescription, "\n",
      "Requirements: ", d.requirements, "\n",
      "Budget: ", d.budget, "\n",
      "Timeline: ", d.timeline, "\n",
      "Client Name: ", d.clientName, "\n" ]
  }

  /** The prompt: the head fixed by the request, the context slot, then the list of sections to write. */
  function BuildPrompt(d: ProjectData, context: string): (prompt: string)
    ensures prompt == Concat(PromptFields(d)) + context + SectionsInstruction
  {
    PromptShape(d, context);
    Concat(PromptFields(d) + [context, SectionsInstruction])
  }

  /** The prompt carries every field of the request and the context verbatim. */
  lemma PromptCarriesRequest(d: ProjectData, context: string)
    ensures var prompt := BuildPrompt(d, context);
      && IsInfix(d.projectTitle, prompt)
      && IsInfix(d.projectDescription, prompt)
      && IsInfix(d.requirements, prompt)
      && IsInfix(d.budget, prompt)
      && IsInfix(d.timeline, prompt)
      && IsInfix(d.clientName, prompt)
      && IsInfix(context, prompt)
  {
    PartInPrompt(d, context, 2);
    PartInPrompt(d, context, 5);
    PartInPrompt(d, context, 8);
    PartInPrompt(d, context, 11);
    PartInPrompt(d, context, 14);
    PartInPrompt(d, context, 17);
    PartInPrompt(d, context, 19);
  }

  /** The i-th part of the prompt occurs in it. */
  lemma PartInPrompt(d: ProjectData, context: string, i: nat)
    requires i < |PromptFields(d)| + 2
    ensures IsInfix((PromptFields(d) + [context, SectionsInstruction])[i], BuildPrompt(d, context))
  {
    assert BuildPrompt(d, context) == Concat(PromptFields(d) + [context, SectionsInstruction]);
    PartIsInfix(PromptFields(d) + [context, SectionsInstruction], i);
  }

  lemma PromptShape(d: ProjectData, context: string)
    ensures Concat(PromptFields(d) + [context, SectionsInstruction]) == Concat(PromptFields(d)) + context + SectionsInstruction
  {
    var slot := [context, SectionsInstruction];
    ConcatAppend(PromptFields(d), slot);
    assert slot[..1] == [context];
    assert [context][..0] == [];
    assert Concat([context]) == context;
    assert Concat(slot) == Concat(slot[..1]) + slot[1];
    AppendAssoc(Concat(PromptFields(d)), context, SectionsInstruction);
  }

  // ---- the chat completion call ----

  const ChatModel: string := "llama-3.3-70b-versatile"
  const SystemMessage: string :=
    "You are an expert proposal writer with years of experience in creating winning project proposals."
  const Temperature: real := 0.7
  const MaxTokens: nat := 2000

  datatype ChatRequest = ChatRequest(
    model: string,
    systemMessage: string,
    userMessage: string,
    temperature: real,
    maxTokens: nat)

  /** What the client call yields: the first choice's content, or the failure's message. */
  datatype Completion = Completed(content: string) | Failed(reason: string)

  /** The completion request for `prompt`: the fixed model, system message, temperature and token cap. */
  function RequestFor(prompt: string): (r: ChatRequest)
    ensures r.model == "llama-3.3-70b-versatile"
    ensures r.systemMessage == SystemMessage
    ensures r.userMessage == prompt
    ensures r.temperature == 0.7 && r.maxTokens == 2000
  {
    ChatRequest(ChatModel, SystemMessage, prompt, Temperature, MaxTokens)
  }

  const ErrorPrefix: string := "Error generating proposal: "

  /**
   * The string `generate_proposal` returns: the model's text, or, when the
   * call failed, the prefix followed by the failure's message.
   */
  function ReplyText(c: Completion): (text: string)
    ensures c.Completed? ==> text == c.content
    ensures c.Failed? ==> ErrorPrefix <= text && text[|ErrorPrefix|..] == c.reason
  {
    match c
    case Completed(content) => content
    case Failed(reason) => ErrorPrefix + reason
  }
}
