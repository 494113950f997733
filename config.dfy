/** The conversation-context manager of the `config` package: a configuration
    record holding named conversation threads ("contexts"), the id of the one
    currently selected and a legacy flat history used before contexts existed.
    The clock is a parameter: `now` is the RFC 3339 text of `time.Now()` and
    `clockNanos` its Unix nanoseconds, from which context ids are made. */
module Config {
  import Text

  datatype Option<T> = None | Some(value: T)

  /** One role-tagged utterance ("user" or "assistant"). */
  datatype ChatMessage = ChatMessage(role: string, content: string)

  /** A named conversation thread with its own history and time stamps. */
  datatype Context = Context(id: string, name: string, history: seq<ChatMessage>, created: string, updated: string)

  datatype Error =
    | NameExists(name: string)           // CreateNewContext: the name is taken
    | IdNotFound(id: string)             // SwitchContext, DeleteContext: no such key
    | UnknownContext(identifier: string) // main.go: neither an id nor a name

  datatype Result<T> = Ok(value: T) | Err(error: Error)

  datatype Outcome = Pass | Fail(error: Error)

  /** The model a configuration starts with when no file exists. */
  const DEFAULT_MODEL := "gpt-3.5-turbo"

  /** The name of the context created when none exists. */
  const DEFAULT_CONTEXT_NAME := "default"

  /** `generateID`: "ctx_" followed by the clock's Unix nanoseconds in decimal. */
  function GenerateId(clockNanos: int): (id: string)
    ensures |id| > 4 && id[..4] == "ctx_"
  {
    "ctx_" + Text.IntToDecimal(clockNanos)
  }

  /** Two different clock readings never give the same id. */
  lemma GenerateIdInjective(a: int, b: int)
    requires GenerateId(a) == GenerateId(b)
    ensures a == b
  {
    assert GenerateId(a)[4..] == Text.IntToDecimal(a);
    assert GenerateId(b)[4..] == Text.IntToDecimal(b);
    Text.IntToDecimalInjective(a, b);
  }

  /** Some context in `m` carries exactly this name. */
  ghost predicate NameInUse(m: map<string, Context>, name: string)
  {
    exists k :: k in m && m[k].name == name
  }

  /** Every key is a non-empty id and stores the context with that id. */
  ghost predicate WellKeyed(m: map<string, Context>)
  {
    forall k :: k in m ==> k != "" && m[k].id == k
  }

  /** A selection that names no context. */
  predicate Stale(m: map<string, Context>, current: string)
  {
    current != "" && current !in m
  }

  /** The effect of resolving the current context (GetCurrentContext) on the
      map `m0` and selection `current0`: the new map `m1`, the new selection
      `current1` and the context returned. With nothing selected, an empty map
      gets a fresh "default" context and a non-empty one has SOME key selected;
      a stale selection is returned as None and left alone. */
  ghost predicate Resolution(m0: map<string, Context>, current0: string,
                             m1: map<string, Context>, current1: string,
                             clockNanos: int, now: string, ctx: Option<Context>)
  {
    if current0 == "" then
      if |m0| == 0 then
        var id := GenerateId(clockNanos);
        && m1 == map[id := Context(id, DEFAULT_CONTEXT_NAME, [], now, now)]
        && current1 == id
        && ctx == Some(m1[id])
      else
        m1 == m0 && current1 in m0 && ctx == Some(m0[current1])
    else
      && m1 == m0
      && current1 == current0
      && ctx == (if current0 in m0 then Some(m0[current0]) else None)
  }

  /** The history a resolved context offers: empty when none resolved. */
  function HistoryOf(ctx: Option<Context>): seq<ChatMessage>
  {
    if ctx.Some? then ctx.value.history else []
  }

  // ---------------------------------------------------------------------------
  // Listing order: most recently updated first, by Go's string comparison of
  // the `updated` stamps.

  /** `a` is not ordered after `b`: `!(b.updated > a.updated)` in Go. */
  predicate NewerOrSame(a: Context, b: Context)
  {
    !Text.LexLess(a.updated, b.updated)
  }

  predicate SortedNewestFirst(s: seq<Context>)
  {
    forall i, j :: 0 <= i < j < |s| ==> NewerOrSame(s[i], s[j])
  }

  /** No two elements of `s` carry the same id. */
  predicate DistinctIds(s: seq<Context>)
  {
    forall i, j :: 0 <= i < j < |s| ==> s[i].id != s[j].id
  }

  /** `r` lists every context of `m` exactly once: each value appears, every
      element is the context stored under its own id, and no id repeats;
      so `r` is a permutation of the map's values. */
  ghost predicate Listing(r: seq<Context>, m: map<string, Context>)
  {
    && |r| == |m|
    && (forall k :: k in m ==> m[k] in r)
    && (forall c :: c in r ==> c.id in m && m[c.id] == c)
    && DistinctIds(r)
  }

  lemma NewerOrSameTransitive(a: Context, b: Context, c: Context)
    requires NewerOrSame(a, b) && NewerOrSame(b, c)
    ensures NewerOrSame(a, c)
  {
    // a.updated >= b.updated >= c.updated; an equal pair makes a < c impossible outright
    if Text.LexLess(a.updated, c.updated) && a.updated != b.updated && b.updated != c.updated {
      Text.LexLessTotal(a.updated, b.updated);
      Text.LexLessTotal(b.updated, c.updated);
      Text.LexLessTransitive(c.updated, b.updated, a.updated);
      Text.LexLessTransitive(a.updated, c.updated, a.updated);
      Text.LexLessIrreflexive(a.updated);
    }
  }

  /** Places `c` before the first element it is newer than or as new as. */
  function InsertNewestFirst(c: Context, s: seq<Context>): seq<Context>
  {
    if s == [] then [c]
    else if NewerOrSame(c, s[0]) then [c] + s
    else [s[0]] + InsertNewestFirst(c, s[1..])
  }

  /** The order `sort.Slice` establishes with ListContexts' comparator
      (the library's algorithm itself is not visible; insertion sort here). */
  function SortNewestFirst(s: seq<Context>): seq<Context>
  {
    if s == [] then [] else InsertNewestFirst(s[0], SortNewestFirst(s[1..]))
  }

  lemma {:induction false} InsertNewestFirstPermutes(c: Context, s: seq<Context>)
    ensures multiset(InsertNewestFirst(c, s)) == multiset(s) + multiset{c}
  {
    if s != [] && !NewerOrSame(c, s[0]) {
      InsertNewestFirstPermutes(c, s[1..]);
      assert s == [s[0]] + s[1..];
    }
  }

  /** The head of a newest-first list is as new as everything after it. */
  lemma HeadIsNewest(s: seq<Context>, x: Context)
    requires SortedNewestFirst(s) && |s| > 0
    requires x in s[1..]
    ensures NewerOrSame(s[0], x)
  {
    var k :| 0 <= k < |s| - 1 && s[1..][k] == x;
    assert s[k + 1] == x;
  }

  lemma {:induction false} InsertNewestFirstSorted(c: Context, s: seq<Context>)
    requires SortedNewestFirst(s)
    ensures SortedNewestFirst(InsertNewestFirst(c, s))
  {
    if s == [] {
    } else if NewerOrSame(c, s[0]) {
      var r := [c] + s;
      forall i, j | 0 <= i < j < |r| ensures NewerOrSame(r[i], r[j]) {
        if i == 0 && j > 1 {
          NewerOrSameTransitive(c, s[0], s[j - 1]);
        }
      }
    } else {
      var t := s[1..];
      assert SortedNewestFirst(t);
      InsertNewestFirstSorted(c, t);
      InsertNewestFirstPermutes(c, t);
      var u := InsertNewestFirst(c, t);
      assert NewerOrSame(s[0], c) by {
        if Text.LexLess(s[0].updated, c.updated) {
          Text.LexLessTransitive(c.updated, s[0].updated, c.updated);
          Text.LexLessIrreflexive(c.updated);
        }
      }
      forall x | x in u ensures NewerOrSame(s[0], x) {
        assert x in multiset(u);
        if x != c {
          assert x in multiset(t);
          HeadIsNewest(s, x);
        }
      }
      var r := [s[0]] + u;
      forall i, j | 0 <= i < j < |r| ensures NewerOrSame(r[i], r[j]) {
        assert r[j] == u[j - 1];
        if i > 0 {
          assert r[i] == u[i - 1];
        }
      }
    }
  }

  /** Inserting a context whose id is new keeps the ids distinct. */
  lemma {:induction false} InsertNewestFirstDistinct(c: Context, s: seq<Context>)
    requires DistinctIds(s)
    requires forall x :: x in s ==> x.id != c.id
    ensures DistinctIds(InsertNewestFirst(c, s))
  {
    if s != [] && !NewerOrSame(c, s[0]) {
      var t := s[1..];
      InsertNewestFirstDistinct(c, t);
      InsertNewestFirstPermutes(c, t);
      var u := InsertNewestFirst(c, t);
      forall x | x in u ensures x.id != s[0].id {
        assert x in multiset(u);
        if x != c {
          assert x in multiset(t);
          var k :| 0 <= k < |t| && t[k] == x;
          assert s[k + 1] == x;
        }
      }
      var r := [s[0]] + u;
      forall i, j | 0 <= i < j < |r| ensures r[i].id != r[j].id {
        assert r[j] == u[j - 1];
        if i > 0 {
          assert r[i] == u[i - 1];
        }
      }
    }
  }

  lemma {:induction false} SortNewestFirstCorrect(s: seq<Context>)
    ensures SortedNewestFirst(SortNewestFirst(s))
    ensures multiset(SortNewestFirst(s)) == multiset(s)
  {
    if s != [] {
      SortNewestFirstCorrect(s[1..]);
      InsertNewestFirstSorted(s[0], SortNewestFirst(s[1..]));
      InsertNewestFirstPermutes(s[0], SortNewestFirst(s[1..]));
      assert s == [s[0]] + s[1..];
    }
  }

  /** Sorting a list whose ids are distinct keeps them distinct. */
  lemma {:induction false} SortNewestFirstDistinct(s: seq<Context>)
    requires DistinctIds(s)
    ensures DistinctIds(SortNewestFirst(s))
  {
    if s != [] {
      var t := s[1..];
      var u := SortNewestFirst(t);
      SortNewestFirstDistinct(t);
      SortNewestFirstCorrect(t);
      forall x | x in u ensures x.id != s[0].id {
        assert x in multiset(u);
        var k :| 0 <= k < |t| && t[k] == x;
        assert s[k + 1] == x;
      }
      InsertNewestFirstDistinct(s[0], u);
    }
  }

  /** With pairwise different stamps a newest-first listing is strictly
      descending: stamps T1 < T2 < T3 are listed as T3, T2, T1. */
  lemma SortedDistinctIsStrict(s: seq<Context>)
    requires SortedNewestFirst(s)
    requires forall i, j :: 0 <= i < j < |s| ==> s[i].updated != s[j].updated
    ensures forall i, j :: 0 <= i < j < |s| ==> Text.LexLess(s[j].updated, s[i].updated)
  {
    forall i, j | 0 <= i < j < |s| ensures Text.LexLess(s[j].updated, s[i].updated) {
      Text.LexLessTotal(s[i].updated, s[j].updated);
    }
  }

  // ---------------------------------------------------------------------------

  /** The configuration record. A nil `Contexts` map of the source is
      `contextsMade == false` with an empty `contexts`. */
  class Config {
    var apiKey: string
    var model: string
    var history: seq<ChatMessage>
    var contexts: map<string, Context>
    var contextsMade: bool
    var currentContext: string

    ghost predicate Valid()
      reads this
    {
      && (!contextsMade ==> contexts == map[])
      && WellKeyed(contexts)
    }

    /** The selection is empty or names an existing context. */
    ghost predicate SelectionValid()
      reads this
    {
      currentContext == "" || currentContext in contexts
    }

    /** `Load` when no configuration file exists. */
    constructor ()
      ensures Valid()
      ensures apiKey == "" && model == DEFAULT_MODEL && history == []
      ensures contexts == map[] && !contextsMade && currentContext == ""
    {
      apiKey, model, history := "", DEFAULT_MODEL, [];
      contexts, contextsMade, currentContext := map[], false, "";
    }

    // Legacy flat history.

    method AddToHistory(role: string, content: string)
      modifies this`history
      ensures history == old(history) + [ChatMessage(role, content)]
    {
      history := history + [ChatMessage(role, content)];
    }

    method ClearHistory()
      modifies this`history
      ensures history == []
    {
      history := [];
    }

    method GetHistory() returns (h: seq<ChatMessage>)
      ensures h == history
    {
      h := history;
    }

    method GetHistoryLength() returns (n: nat)
      ensures n == |history|
    {
      n := |history|;
    }

    // Contexts.

    /** Replaces a nil map by an empty one; never drops an entry. */
    method InitContexts()
      requires Valid()
      modifies this`contexts, this`contextsMade
      ensures Valid() && contextsMade
      ensures contexts == old(contexts)
    {
      if !contextsMade {
        contexts := map[];
        contextsMade := true;
      }
    }

    /** Creates and selects a context named `name`, unless the name is taken. */
    method CreateNewContext(name: string, clockNanos: int, now: string) returns (res: Result<string>)
      requires Valid()
      modifies this`contexts, this`contextsMade, this`currentContext
      ensures Valid() && contextsMade
      ensures res.Err? <==> NameInUse(old(contexts), name)
      ensures res.Err? ==> res.error == NameExists(name)
      ensures res.Err? ==> contexts == old(contexts) && currentContext == old(currentContext)
      ensures res.Ok? ==>
        var id := GenerateId(clockNanos);
        && res.value == id
        && contexts == old(contexts)[id := Context(id, name, [], now, now)]
        && currentContext == id
      ensures res.Ok? && GenerateId(clockNanos) !in old(contexts) ==> |contexts| == |old(contexts)| + 1
      ensures old(SelectionValid()) ==> SelectionValid()
    {
      InitContexts();
      var id := GenerateId(clockNanos);
      var unseen := contexts.Keys;
      while unseen != {}
        invariant unseen <= contexts.Keys
        invariant forall k :: k in contexts && k !in unseen ==> contexts[k].name != name
        decreases unseen
      {
        var k :| k in unseen;
        if contexts[k].name == name {
          return Err(NameExists(name));
        }
        unseen := unseen - {k};
      }
      contexts := contexts[id := Context(id, name, [], now, now)];
      currentContext := id;
      res := Ok(id);
    }

    /** Selects the context stored under `contextId`, if there is one. */
    method SwitchContext(contextId: string) returns (out: Outcome)
      requires Valid()
      modifies this`contexts, this`contextsMade, this`currentContext
      ensures Valid() && contextsMade && contexts == old(contexts)
      ensures out.Pass? <==> contextId in contexts
      ensures out.Pass? ==> currentContext == contextId
      ensures out.Fail? ==> out.error == IdNotFound(contextId) && currentContext == old(currentContext)
      ensures old(SelectionValid()) ==> SelectionValid()
    {
      InitContexts();
      if contextId !in contexts {
        return Fail(IdNotFound(contextId));
      }
      currentContext := contextId;
      out := Pass;
    }

    /** Resolves the current context, creating "default" when there is none
        at all and selecting an arbitrary one when none is selected. */
    method GetCurrentContext(clockNanos: int, now: string) returns (ctx: Option<Context>)
      requires Valid()
      modifies this`contexts, this`contextsMade, this`currentContext
      ensures Valid() && contextsMade
      ensures Resolution(old(contexts), old(currentContext), contexts, currentContext, clockNanos, now, ctx)
      ensures ctx.None? <==> Stale(old(contexts), old(currentContext))
      ensures ctx.Some? ==> currentContext in contexts && contexts[currentContext] == ctx.value
      ensures old(SelectionValid()) ==> SelectionValid() && ctx.Some?
    {
      InitContexts();
      if currentContext == "" {
        if |contexts| == 0 {
          var res := CreateNewContext(DEFAULT_CONTEXT_NAME, clockNanos, now);
          assert res.Ok?;  // no name is in use in an empty map
          currentContext := res.value;
        } else {
          var id :| id in contexts;
          currentContext := id;
        }
      }
      if currentContext in contexts {
        ctx := Some(contexts[currentContext]);
      } else {
        ctx := None;
      }
    }

    /** The current context's history; empty (not the legacy history) when
        the selection is stale. */
    method GetCurrentContextHistory(clockNanos: int, now: string) returns (h: seq<ChatMessage>, ghost ctx: Option<Context>)
      requires Valid()
      modifies this`contexts, this`contextsMade, this`currentContext
      ensures Valid() && contextsMade
      ensures Resolution(old(contexts), old(currentContext), contexts, currentContext, clockNanos, now, ctx)
      ensures h == HistoryOf(ctx)
      ensures Stale(old(contexts), old(currentContext)) ==> h == []
      ensures !Stale(old(contexts), old(currentContext)) ==> h == contexts[currentContext].history
    {
      var current := GetCurrentContext(clockNanos, now);
      ctx := current;
      if current.None? {
        return [], ctx;
      }
      h := current.value.history;
    }

    /** Appends one message to the current context and refreshes its stamp;
        with a stale selection the message goes to the legacy history. */
    method AddToCurrentContext(role: string, content: string, clockNanos: int, now: string)
      returns (ghost resolved: map<string, Context>, ghost ctx: Option<Context>)
      requires Valid()
      modifies this`contexts, this`contextsMade, this`currentContext, this`history
      ensures Valid() && contextsMade
      ensures Resolution(old(contexts), old(currentContext), resolved, currentContext, clockNanos, now, ctx)
      ensures ctx.None? ==> contexts == resolved && history == old(history) + [ChatMessage(role, content)]
      ensures ctx.Some? ==>
        && history == old(history)
        && contexts == resolved[currentContext := ctx.value.(history := ctx.value.history + [ChatMessage(role, content)], updated := now)]
      ensures old(SelectionValid()) ==> SelectionValid()
    {
      var current := GetCurrentContext(clockNanos, now);
      resolved, ctx := contexts, current;
      if current.None? {
        AddToHistory(role, content);
        return;
      }
      var c := current.value;
      contexts := contexts[currentContext := c.(history := c.history + [ChatMessage(role, content)], updated := now)];
    }

    /** Empties the current context's history and refreshes its stamp; with a
        stale selection the legacy history is cleared instead. */
    method ClearCurrentContext(clockNanos: int, now: string)
      returns (ghost resolved: map<string, Context>, ghost ctx: Option<Context>)
      requires Valid()
      modifies this`contexts, this`contextsMade, this`currentContext, this`history
      ensures Valid() && contextsMade
      ensures Resolution(old(contexts), old(currentContext), resolved, currentContext, clockNanos, now, ctx)
      ensures ctx.None? ==> contexts == resolved && history == []
      ensures ctx.Some? ==>
        && history == old(history)
        && contexts == resolved[currentContext := ctx.value.(history := [], updated := now)]
      ensures old(SelectionValid()) ==> SelectionValid()
    {
      var current := GetCurrentContext(clockNanos, now);
      resolved, ctx := contexts, current;
      if current.None? {
        ClearHistory();
        return;
      }
      var c := current.value;
      contexts := contexts[currentContext := c.(history := [], updated := now)];
    }

    /** Removes the context stored under `contextId`; a selection of it is
        reset to none, never to another context. */
    method DeleteContext(contextId: string) returns (out: Outcome)
      requires Valid()
      modifies this`contexts, this`contextsMade, this`currentContext
      ensures Valid() && contextsMade
      ensures out.Pass? <==> contextId in old(contexts)
      ensures out.Fail? ==> out.error == IdNotFound(contextId)
      ensures out.Fail? ==> contexts == old(contexts) && currentContext == old(currentContext)
      ensures out.Pass? ==> contexts == old(contexts) - {contextId}
      ensures out.Pass? ==> currentContext == if old(currentContext) == contextId then "" else old(currentContext)
      ensures old(SelectionValid()) ==> SelectionValid()
    {
      InitContexts();
      if contextId !in contexts {
        return Fail(IdNotFound(contextId));
      }
      contexts := contexts - {contextId};
      if currentContext == contextId {
        currentContext := "";
      }
      out := Pass;
    }

    /** All contexts, most recently updated first. */
    method ListContexts() returns (r: seq<Context>)
      requires Valid()
      modifies this`contexts, this`contextsMade
      ensures Valid() && contextsMade && contexts == old(contexts)
      ensures Listing(r, contexts)
      ensures SortedNewestFirst(r)
    {
      InitContexts();
      var unseen := contexts.Keys;
      var listed: seq<Context> := [];
      while unseen != {}
        invariant unseen <= contexts.Keys
        invariant |listed| + |unseen| == |contexts|
        invariant forall k :: k in contexts && k !in unseen ==> contexts[k] in listed
        invariant forall c :: c in listed ==> c.id in contexts && c.id !in unseen && contexts[c.id] == c
        invariant DistinctIds(listed)
        decreases unseen
      {
        var k :| k in unseen;
        listed := listed + [contexts[k]];
        unseen := unseen - {k};
      }
      r := SortNewestFirst(listed);
      SortNewestFirstCorrect(listed);
      SortNewestFirstDistinct(listed);
      assert forall c :: c in r <==> c in listed by {
        forall c ensures c in r <==> c in listed {
          assert c in r <==> c in multiset(r);
          assert c in listed <==> c in multiset(listed);
        }
      }
      assert |r| == |multiset(r)| == |multiset(listed)| == |listed|;
    }
  }
}
