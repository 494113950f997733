/** Sequences of context-manager operations as the command-line layer runs
    them, with the end-to-end behaviour they are expected to show: a recorded
    exchange reads back in order, a cleared history reads back empty, and
    deleting the selected context leads either to another existing context or
    to a freshly bootstrapped "default" one. */
module Scenarios {
  import opened Config

  /** A new context that records a user message and then an assistant reply
      reads back exactly those two messages, in that order. */
  method CreateRecordRead(cfg: Config, name: string, clockNanos: int, now: string,
                          user: string, assistant: string)
    returns (res: Result<string>, h: seq<ChatMessage>)
    requires cfg.Valid()
    requires !NameInUse(cfg.contexts, name)
    modifies cfg
    ensures cfg.Valid() && res.Ok?
    ensures cfg.currentContext == res.value && res.value in cfg.contexts && cfg.contexts[res.value].name == name
    ensures h == [ChatMessage("user", user), ChatMessage("assistant", assistant)]
    ensures cfg.history == old(cfg.history)
  {
    res := cfg.CreateNewContext(name, clockNanos, now);
    ghost var m, c := cfg.AddToCurrentContext("user", user, clockNanos, now);
    m, c := cfg.AddToCurrentContext("assistant", assistant, clockNanos, now);
    ghost var again;
    h, again := cfg.GetCurrentContextHistory(clockNanos, now);
  }

  /** Clearing and then reading the current history always gives nothing,
      whether the selection resolves (its history was emptied) or is stale
      (the legacy history was cleared and a stale selection reads as empty). */
  method ClearThenRead(cfg: Config, clockNanos: int, now: string) returns (h: seq<ChatMessage>)
    requires cfg.Valid()
    modifies cfg
    ensures cfg.Valid()
    ensures h == []
    ensures Stale(old(cfg.contexts), old(cfg.currentContext)) ==> cfg.history == []
  {
    ghost var m, c := cfg.ClearCurrentContext(clockNanos, now);
    ghost var again;
    h, again := cfg.GetCurrentContextHistory(clockNanos, now);
  }

  /** Deleting the selected context while another one exists: the next
      resolution picks some remaining context and creates nothing. */
  method DeleteSelectedThenResolve(cfg: Config, clockNanos: int, now: string)
    returns (ctx: Option<Context>)
    requires cfg.Valid()
    requires cfg.currentContext in cfg.contexts && |cfg.contexts| >= 2
    modifies cfg
    ensures cfg.Valid()
    ensures cfg.contexts == old(cfg.contexts) - {old(cfg.currentContext)}
    ensures ctx.Some? && cfg.currentContext in cfg.contexts && ctx.value == cfg.contexts[cfg.currentContext]
    ensures cfg.currentContext != old(cfg.currentContext)
  {
    ghost var deleted := cfg.currentContext;
    var out := cfg.DeleteContext(cfg.currentContext);
    assert cfg.contexts == old(cfg.contexts) - {deleted};
    assert |cfg.contexts| == |old(cfg.contexts)| - 1;
    ctx := cfg.GetCurrentContext(clockNanos, now);
  }

  /** Deleting the only context, which is selected: the next resolution
      creates a "default" context and selects it, so one context exists again. */
  method DeleteOnlyThenResolve(cfg: Config, clockNanos: int, now: string)
    returns (ctx: Option<Context>)
    requires cfg.Valid()
    requires cfg.currentContext in cfg.contexts && |cfg.contexts| == 1
    modifies cfg
    ensures cfg.Valid()
    ensures |cfg.contexts| == 1 && cfg.currentContext in cfg.contexts
    ensures ctx == Some(Context(cfg.currentContext, DEFAULT_CONTEXT_NAME, [], now, now))
  {
    var out := cfg.DeleteContext(cfg.currentContext);
    assert |cfg.contexts| == 0;
    ctx := cfg.GetCurrentContext(clockNanos, now);
  }

  /** A document with only a legacy history and no contexts: the first append
      goes to a newly bootstrapped "default" context, not to the legacy
      history, which stays as it was. */
  method LegacyDocumentAppend(cfg: Config, role: string, content: string, clockNanos: int, now: string)
    requires cfg.Valid()
    requires cfg.contexts == map[] && cfg.currentContext == ""
    modifies cfg
    ensures cfg.Valid()
    ensures cfg.history == old(cfg.history)
    ensures |cfg.contexts| == 1 && cfg.currentContext in cfg.contexts
    ensures cfg.contexts[cfg.currentContext] ==
      Context(cfg.currentContext, DEFAULT_CONTEXT_NAME, [ChatMessage(role, content)], now, now)
  {
    ghost var m, c := cfg.AddToCurrentContext(role, content, clockNanos, now);
  }
}
