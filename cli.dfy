/** The command-line layer over the context manager: resolving a context by id
    or by name for `--switch` and `--delete-context`, masking the API key for
    display, the history preview of `--show-config`, and the default flow that
    sends a prompt with the current context's history and records the reply.
    The completion service is a parameter: `reply` is the first choice's
    content, or None when the service returned no choices. */
module Cli {
  import Text
  import opened Config

  const USER_ROLE := "user"
  const ASSISTANT_ROLE := "assistant"

  /** The masked form of `maskAPIKey`: short keys become eight stars; longer
      ones keep their first and last four characters and star the rest. */
  function MaskApiKey(key: string): (masked: string)
    ensures |key| <= 8 ==> masked == "********"
    ensures |key| > 8 ==> |masked| == |key|
    ensures |key| > 8 ==> masked[..4] == key[..4] && masked[|key| - 4..] == key[|key| - 4..]
    ensures |key| > 8 ==> forall i :: 4 <= i < |key| - 4 ==> masked[i] == '*'
  {
    if |key| <= 8 then "********"
    else key[..4] + Text.Repeat('*', |key| - 8) + key[|key| - 4..]
  }

  /** Content as the preview shows it: cut to 47 characters and "..." when
      longer than 50, so never longer than 50. */
  function TruncateContent(content: string): (shown: string)
    ensures |shown| <= 50
    ensures |content| <= 50 ==> shown == content
    ensures |content| > 50 ==> |shown| == 50 && shown[..47] == content[..47] && shown[47..] == "..."
  {
    if |content| > 50 then content[..47] + "..." else content
  }

  /** One preview line: "    <role>: <content>". */
  datatype PreviewLine = PreviewLine(role: string, content: string)

  /** The recent-conversation preview: the last (at most) four messages, each
      with its content truncated. */
  method HistoryPreview(history: seq<ChatMessage>) returns (lines: seq<PreviewLine>)
    ensures |lines| == if |history| < 4 then |history| else 4
    ensures forall k :: 0 <= k < |lines| ==>
      var m := history[|history| - |lines| + k];
      lines[k] == PreviewLine(m.role, TruncateContent(m.content))
  {
    var start := |history| - 4;
    if start < 0 {
      start := 0;
    }
    lines := [];
    var i := start;
    while i < |history|
      invariant start <= i <= |history|
      invariant |lines| == i - start
      invariant forall k :: 0 <= k < |lines| ==>
        lines[k] == PreviewLine(history[start + k].role, TruncateContent(history[start + k].content))
    {
      var content := history[i].content;
      if |content| > 50 {
        content := content[..47] + "...";
      }
      lines := lines + [PreviewLine(history[i].role, content)];
      i := i + 1;
    }
  }

  /** The position of the first context named `name`, or |cs| if there is none. */
  function FirstNamed(cs: seq<Context>, name: string): (i: nat)
    ensures i <= |cs|
    ensures forall k :: 0 <= k < i ==> cs[k].name != name
    ensures i < |cs| ==> cs[i].name == name
  {
    if cs == [] then 0
    else if cs[0].name == name then 0
    else 1 + FirstNamed(cs[1..], name)
  }

  /** A listing of `m` has a context named `name` exactly when one is in use. */
  lemma ListingFindsName(listed: seq<Context>, m: map<string, Context>, name: string)
    requires Listing(listed, m)
    ensures FirstNamed(listed, name) < |listed| <==> NameInUse(m, name)
  {
    var i := FirstNamed(listed, name);
    if i < |listed| {
      assert listed[i] in listed;
    }
    if NameInUse(m, name) {
      var k :| k in m && m[k].name == name;
      assert m[k] in listed;
      var j :| 0 <= j < |listed| && listed[j] == m[k];
    }
  }

  /** `switchToContext`: the identifier as an id first, otherwise the first
      context of the newest-first listing with that name. */
  method SwitchToContext(cfg: Config, identifier: string) returns (out: Outcome, ghost listed: seq<Context>)
    requires cfg.Valid()
    modifies cfg
    ensures cfg.Valid() && cfg.contexts == old(cfg.contexts)
    ensures cfg.history == old(cfg.history) && cfg.apiKey == old(cfg.apiKey) && cfg.model == old(cfg.model)
    ensures out.Pass? <==> identifier in old(cfg.contexts) || NameInUse(old(cfg.contexts), identifier)
    ensures identifier in old(cfg.contexts) ==> cfg.currentContext == identifier
    ensures out.Pass? && identifier !in old(cfg.contexts) ==>
      && Listing(listed, cfg.contexts) && SortedNewestFirst(listed)
      && FirstNamed(listed, identifier) < |listed|
      && cfg.currentContext == listed[FirstNamed(listed, identifier)].id
      && cfg.contexts[cfg.currentContext].name == identifier
    ensures out.Fail? ==> out.error == UnknownContext(identifier) && cfg.currentContext == old(cfg.currentContext)
  {
    listed := [];
    out := cfg.SwitchContext(identifier);
    if out.Pass? {
      return;
    }
    var contexts := cfg.ListContexts();
    listed := contexts;
    ListingFindsName(contexts, cfg.contexts, identifier);
    ghost var before := cfg.currentContext;
    var i := 0;
    while i < |contexts|
      invariant 0 <= i <= |contexts|
      invariant forall k :: 0 <= k < i ==> contexts[k].name != identifier
      invariant cfg.Valid() && cfg.contexts == old(cfg.contexts) && cfg.currentContext == before
      invariant cfg.history == old(cfg.history) && cfg.apiKey == old(cfg.apiKey) && cfg.model == old(cfg.model)
    {
      if contexts[i].name == identifier {
        assert contexts[i] in contexts;
        out := cfg.SwitchContext(contexts[i].id);
        assert out.Pass?;  // every listed context is stored under its own id
        return;
      }
      i := i + 1;
    }
    out := Fail(UnknownContext(identifier));
  }

  /** `deleteContext`: the identifier as an id first, otherwise the first
      context of the newest-first listing with that name; removes at most one. */
  method DeleteContext(cfg: Config, identifier: string)
    returns (out: Outcome, ghost removed: string, ghost listed: seq<Context>)
    requires cfg.Valid()
    modifies cfg
    ensures cfg.Valid()
    ensures cfg.history == old(cfg.history) && cfg.apiKey == old(cfg.apiKey) && cfg.model == old(cfg.model)
    ensures out.Pass? <==> identifier in old(cfg.contexts) || NameInUse(old(cfg.contexts), identifier)
    ensures out.Pass? ==>
      && removed in old(cfg.contexts)
      && cfg.contexts == old(cfg.contexts) - {removed}
      && cfg.currentContext == if old(cfg.currentContext) == removed then "" else old(cfg.currentContext)
    ensures identifier in old(cfg.contexts) ==> removed == identifier
    ensures out.Pass? && identifier !in old(cfg.contexts) ==>
      && Listing(listed, old(cfg.contexts)) && SortedNewestFirst(listed)
      && FirstNamed(listed, identifier) < |listed|
      && removed == listed[FirstNamed(listed, identifier)].id
      && old(cfg.contexts)[removed].name == identifier
    ensures out.Fail? ==>
      && out.error == UnknownContext(identifier)
      && cfg.contexts == old(cfg.contexts) && cfg.currentContext == old(cfg.currentContext)
  {
    listed, removed := [], identifier;
    out := cfg.DeleteContext(identifier);
    if out.Pass? {
      return;
    }
    var contexts := cfg.ListContexts();
    listed := contexts;
    ListingFindsName(contexts, cfg.contexts, identifier);
    ghost var before := cfg.currentContext;
    var i := 0;
    while i < |contexts|
      invariant 0 <= i <= |contexts|
      invariant forall k :: 0 <= k < i ==> contexts[k].name != identifier
      invariant cfg.Valid() && cfg.contexts == old(cfg.contexts) && cfg.currentContext == before
      invariant cfg.history == old(cfg.history) && cfg.apiKey == old(cfg.apiKey) && cfg.model == old(cfg.model)
    {
      if contexts[i].name == identifier {
        assert contexts[i] in contexts;
        removed := contexts[i].id;
        out := cfg.DeleteContext(contexts[i].id);
        assert out.Pass?;  // every listed context is stored under its own id
        return;
      }
      i := i + 1;
    }
    out := Fail(UnknownContext(identifier));
  }

  /** The default flow of `ask "<prompt>"`: resolve the current context, send
      its history (unless `noContext`) followed by the prompt, and on a reply
      record the prompt and then the reply in the current context. */
  method SendPrompt(cfg: Config, prompt: string, noContext: bool, reply: Option<string>, clockNanos: int, now: string)
    returns (messages: seq<ChatMessage>, ghost resolved: map<string, Context>, ghost ctx: Option<Context>)
    requires cfg.Valid()
    modifies cfg
    ensures cfg.Valid()
    ensures cfg.apiKey == old(cfg.apiKey) && cfg.model == old(cfg.model)
    ensures Resolution(old(cfg.contexts), old(cfg.currentContext), resolved, cfg.currentContext, clockNanos, now, ctx)
    ensures messages == (if noContext then [] else HistoryOf(ctx)) + [ChatMessage(USER_ROLE, prompt)]
    ensures reply.None? || noContext ==> cfg.contexts == resolved && cfg.history == old(cfg.history)
    ensures reply.Some? && !noContext && ctx.Some? ==>
      && cfg.history == old(cfg.history)
      && cfg.contexts == resolved[cfg.currentContext := ctx.value.(
           history := ctx.value.history + [ChatMessage(USER_ROLE, prompt), ChatMessage(ASSISTANT_ROLE, reply.value)],
           updated := now)]
    ensures reply.Some? && !noContext && ctx.None? ==>
      && cfg.contexts == resolved
      && cfg.history == old(cfg.history) + [ChatMessage(USER_ROLE, prompt), ChatMessage(ASSISTANT_ROLE, reply.value)]
  {
    var current := cfg.GetCurrentContext(clockNanos, now);
    resolved, ctx := cfg.contexts, current;
    // From here on the selection is non-empty, so resolving again changes nothing.
    assert cfg.currentContext != "";
    var request: seq<ChatMessage> := [];
    if !noContext {
      var h;
      ghost var again;
      h, again := cfg.GetCurrentContextHistory(clockNanos, now);
      request := request + h;
    }
    messages := request + [ChatMessage(USER_ROLE, prompt)];
    if reply.Some? && !noContext {
      ghost var m1, c1, m2, c2;
      m1, c1 := cfg.AddToCurrentContext(USER_ROLE, prompt, clockNanos, now);
      assert m1 == resolved && c1 == ctx;
      m2, c2 := cfg.AddToCurrentContext(ASSISTANT_ROLE, reply.value, clockNanos, now);
      assert ctx.Some? ==> c2 == Some(ctx.value.(history := ctx.value.history + [ChatMessage(USER_ROLE, prompt)], updated := now));
      assert ctx.Some? ==>
        ctx.value.history + [ChatMessage(USER_ROLE, prompt)] + [ChatMessage(ASSISTANT_ROLE, reply.value)]
        == ctx.value.history + [ChatMessage(USER_ROLE, prompt), ChatMessage(ASSISTANT_ROLE, reply.value)];
    }
  }
}
