/** Prompt assembly shared by both request handlers: a bounded window of the
    caller's history, filtered on `isComplete`, mapped onto chat roles, framed
    by one system entry in front and the new user message at the end. */
module Prompt {
  import opened Py

  datatype Role = System | User | Assistant

  /** One entry of the prompt handed to the completion API; `content` is
      `None` when the history entry's `text` was JSON `null`. */
  datatype Message = Message(role: Role, content: Option<string>)

  /** One element of the caller's `history` list: either a JSON object whose
      three relevant keys are given, or some other JSON value (of Python type
      `typeName`), on which `.get` raises. */
  datatype Entry =
    | Entry(sender: Field<string>, text: Field<string>, isComplete: Field<bool>)
    | NonObject(typeName: string)

  function SystemMessage(persona: string): Message
  {
    Message(System, Some(persona))
  }

  function UserMessage(query: string): Message
  {
    Message(User, Some(query))
  }

  /** The entry passes the `isComplete` test; a missing flag reads as true. */
  predicate Complete(e: Entry)
  {
    e.Entry? && TruthyFlag(e.isComplete, true)
  }

  /** The exception text processing `e` in the history loop raises, if any:
      `.get` on a non-object, then the `sender` lookup, then the `text`
      lookup, the latter two only for complete entries. */
  function Fault(e: Entry): (f: Option<string>)
    ensures f.None? <==> e.Entry? && (Complete(e) ==> e.sender != Absent && e.text != Absent)
  {
    match e
    case NonObject(t) => Some(NoGetText(t))
    case Entry(sender, text, _) =>
      if !Complete(e) then None
      else if sender.Absent? then Some(KeyErrorText("sender"))
      else if text.Absent? then Some(KeyErrorText("text"))
      else None
  }

  predicate Faultless(e: Entry)
  {
    Fault(e).None?
  }

  /** `i` is the first entry of `es` whose processing raises. */
  predicate FirstFaultAt(es: seq<Entry>, i: int)
  {
    && 0 <= i < |es|
    && !Faultless(es[i])
    && forall j | 0 <= j < i :: Faultless(es[j])
  }

  /** The prompt entry a complete, faultless history entry becomes. */
  function ToMessage(e: Entry): Message
  {
    var role := if e.Entry? && e.sender == Present("user") then User else Assistant;
    var content := if e.Entry? && e.text.Present? then Some(e.text.value) else None;
    Message(role, content)
  }

  /** What the loop appends for one history entry: nothing for an incomplete
      entry, one message for a complete one, or the exception it raises. */
  function Step(e: Entry): (r: Result<seq<Message>>)
    ensures r.Fail? <==> !Faultless(e)
    ensures r.Fail? ==> r.error == Fault(e).value
    ensures r.Ok? ==> r.value == if Complete(e) then [ToMessage(e)] else []
  {
    match e
    case NonObject(t) => Fail(NoGetText(t))
    case Entry(sender, text, isComplete) =>
      if !TruthyFlag(isComplete, true) then Ok([])
      else if sender.Absent? then Fail(KeyErrorText("sender"))
      else if text.Absent? then Fail(KeyErrorText("text"))
      else
        var role := if sender == Present("user") then User else Assistant;
        var content := if text.Null? then None else Some(text.value);
        Ok([Message(role, content)])
  }

  /** The history loop: process `es` in order, stopping at the first entry
      that raises. */
  function AppendHistory(es: seq<Entry>): (r: Result<seq<Message>>)
    ensures r.Ok? <==> forall i | 0 <= i < |es| :: Faultless(es[i])
    ensures r.Ok? ==> |r.value| <= |es|
    ensures r.Ok? ==> forall k | 0 <= k < |r.value| :: r.value[k].role != System
  {
    if es == [] then Ok([])
    else
      match Step(es[0])
      case Fail(err) => Fail(err)
      case Ok(head) =>
        match AppendHistory(es[1..])
        case Fail(err) => Fail(err)
        case Ok(rest) => Ok(head + rest)
  }

  /** Reference definition of which entries contribute: the complete ones, in
      their original order. */
  function Kept(es: seq<Entry>): seq<Entry>
  {
    if es == [] then []
    else (if Complete(es[0]) then [es[0]] else []) + Kept(es[1..])
  }

  /** Reference definition of the role/content mapping, entry by entry. */
  function Messages(ks: seq<Entry>): (ms: seq<Message>)
    ensures |ms| == |ks|
    ensures forall k | 0 <= k < |ks| :: ms[k] == ToMessage(ks[k])
  {
    if ks == [] then [] else [ToMessage(ks[0])] + Messages(ks[1..])
  }

  /** The history window a handler with window size `n` looks at. */
  function Window(history: seq<Entry>, n: nat): seq<Entry>
  {
    Suffix(history, n)
  }

  /** The fixed framing: the system entry, the history-derived entries, the
      new user message. */
  function Frame(persona: string, ms: seq<Message>, query: string): (p: seq<Message>)
    ensures |p| == |ms| + 2
    ensures p[0] == SystemMessage(persona)
    ensures p[|p| - 1] == UserMessage(query)
    ensures forall k | 0 <= k < |ms| :: p[k + 1] == ms[k]
  {
    [SystemMessage(persona)] + ms + [UserMessage(query)]
  }

  /** Prompt assembly with window size `n`: `history` is the payload's
      `history` key, `query` the (already validated) message. */
  function Assemble(history: Field<seq<Entry>>, query: string, n: nat, persona: string): (r: Result<seq<Message>>)
    ensures history.Null? ==> r == Fail(NotSubscriptableText)
    ensures r.Ok? ==> |r.value| >= 2
    ensures r.Ok? ==> r.value[0] == SystemMessage(persona)
    ensures r.Ok? ==> r.value[|r.value| - 1] == UserMessage(query)
    ensures r.Ok? ==> forall k | 0 < k < |r.value| :: r.value[k].role != System
    ensures r.Ok? && n > 0 ==> |r.value| <= n + 2
  {
    if history.Null? then Fail(NotSubscriptableText)
    else
      var entries := if history.Present? then history.value else [];
      match AppendHistory(Window(entries, n))
      case Fail(err) => Fail(err)
      case Ok(ms) => Ok(Frame(persona, ms, query))
  }

  // ---------------------------------------------------------------------
  // The reference definitions and their relation to the loop

  /** An entry is kept exactly when it occurs in the input and is complete. */
  lemma {:induction false} KeptMembers(es: seq<Entry>, e: Entry)
    ensures e in Kept(es) <==> e in es && Complete(e)
  {
    if es != [] {
      KeptMembers(es[1..], e);
      assert es == [es[0]] + es[1..];
    }
  }

  /** Filtering keeps relative order: it distributes over concatenation. */
  lemma {:induction false} KeptConcat(a: seq<Entry>, b: seq<Entry>)
    ensures Kept(a + b) == Kept(a) + Kept(b)
  {
    if a == [] {
      assert a + b == b;
    } else {
      assert (a + b)[0] == a[0];
      assert (a + b)[1..] == a[1..] + b;
      KeptConcat(a[1..], b);
    }
  }

  /** Every complete entry is kept as often as it occurs, and no incomplete
      entry is kept at all. */
  lemma {:induction false} KeptCounts(es: seq<Entry>, e: Entry)
    ensures multiset(Kept(es))[e] == if Complete(e) then multiset(es)[e] else 0
  {
    if es != [] {
      KeptCounts(es[1..], e);
      assert es == [es[0]] + es[1..];
    }
  }

  lemma {:induction false} KeptLength(es: seq<Entry>)
    ensures |Kept(es)| <= |es|
    ensures |Kept(es)| == |es| <==> forall i | 0 <= i < |es| :: Complete(es[i])
  {
    if es != [] {
      KeptLength(es[1..]);
      if Complete(es[0]) && |Kept(es)| == |es| {
        forall i | 0 <= i < |es| ensures Complete(es[i]) {
          if i > 0 { assert es[i] == es[1..][i - 1]; }
        }
      }
    }
  }

  /** The loop computes exactly filter-then-map whenever it does not raise. */
  lemma {:induction false} AppendHistoryIsFilterThenMap(es: seq<Entry>)
    ensures AppendHistory(es).Ok? ==> AppendHistory(es).value == Messages(Kept(es))
  {
    if es != [] && AppendHistory(es).Ok? {
      AppendHistoryIsFilterThenMap(es[1..]);
      var rest := Kept(es[1..]);
      if Complete(es[0]) {
        assert Kept(es) == [es[0]] + rest;
        assert Messages(Kept(es)) == [ToMessage(es[0])] + Messages(rest);
      } else {
        assert Kept(es) == rest;
      }
    }
  }

  /** The loop raises the exception of the first faulty entry. */
  lemma {:induction false} AppendHistoryReportsFirstFault(es: seq<Entry>, i: int)
    requires FirstFaultAt(es, i)
    ensures AppendHistory(es) == Fail(Fault(es[i]).value)
  {
    if i > 0 {
      assert FirstFaultAt(es[1..], i - 1) by {
        forall j | 0 <= j < i - 1 ensures Faultless(es[1..][j]) {
          assert es[1..][j] == es[j + 1];
        }
      }
      AppendHistoryReportsFirstFault(es[1..], i - 1);
    }
  }

  /** Replacing an incomplete history entry by any other incomplete object
      entry, whatever its sender and text, leaves the loop's outcome unchanged. */
  lemma {:induction false} IncompleteEntryIgnored(es: seq<Entry>, i: nat, e: Entry)
    requires i < |es|
    requires es[i].Entry? && !Complete(es[i])
    requires e.Entry? && !Complete(e)
    ensures AppendHistory(es[i := e]) == AppendHistory(es)
  {
    if i == 0 {
      assert es[i := e][1..] == es[1..];
    } else {
      IncompleteEntryIgnored(es[1..], i - 1, e);
      assert es[i := e][1..] == es[1..][i - 1 := e];
    }
  }

  // ---------------------------------------------------------------------
  // Properties of the assembled prompt

  /** The assembled prompt is the system entry, the complete window entries
      mapped onto roles in their original order, and the new user message;
      it exists exactly when no window entry raises. */
  lemma AssembleShape(history: seq<Entry>, query: string, n: nat, persona: string)
    ensures var r := Assemble(Present(history), query, n, persona);
            var w := Window(history, n);
            && (r.Ok? <==> forall i | 0 <= i < |w| :: Faultless(w[i]))
            && (r.Ok? ==> r.value == Frame(persona, Messages(Kept(w)), query))
  {
    AppendHistoryIsFilterThenMap(Window(history, n));
  }

  /** A missing `history` key behaves as an empty history. */
  lemma AbsentHistoryIsEmpty(query: string, n: nat, persona: string)
    ensures Assemble(Absent, query, n, persona) == Ok([SystemMessage(persona), UserMessage(query)])
  {
    assert Window([], n) == [];
    assert AppendHistory([]) == Ok([]);
    assert Frame(persona, [], query) == [SystemMessage(persona), UserMessage(query)];
  }

  /** Assembly on a history list raises exactly when some window entry
      raises, and then with the exception of the first such entry. */
  lemma AssembleFault(history: seq<Entry>, i: int, query: string, n: nat, persona: string)
    requires FirstFaultAt(Window(history, n), i)
    ensures Assemble(Present(history), query, n, persona) == Fail(Fault(Window(history, n)[i]).value)
  {
    AppendHistoryReportsFirstFault(Window(history, n), i);
  }

  /** Prompt length is two plus the number of complete entries among the last
      min(n, |history|) entries. */
  lemma AssembleLength(history: seq<Entry>, query: string, n: nat, persona: string)
    requires n > 0
    ensures var r := Assemble(Present(history), query, n, persona);
            var w := Window(history, n);
            && |w| == Min(n, |history|)
            && (r.Ok? ==> |r.value| == 2 + |Kept(w)| && |Kept(w)| <= Min(n, |history|))
  {
    AssembleShape(history, query, n, persona);
    KeptLength(Window(history, n));
  }

  /** Role and content of every history-derived prompt entry: role `user`
      exactly for sender `"user"`, `assistant` otherwise, content the entry's
      text; and each comes from a complete entry of the window. */
  lemma AssembleRoles(history: seq<Entry>, query: string, n: nat, persona: string)
    ensures var r := Assemble(Present(history), query, n, persona);
            var ks := Kept(Window(history, n));
            r.Ok? ==> |r.value| == |ks| + 2 && forall k | 0 <= k < |ks| ::
              && ks[k] in Window(history, n)
              && Complete(ks[k])
              && (r.value[k + 1].role == User <==> ks[k].sender == Present("user"))
              && (r.value[k + 1].role == Assistant <==> ks[k].sender != Present("user"))
              && (ks[k].text.Present? ==> r.value[k + 1].content == Some(ks[k].text.value))
              && (ks[k].text.Null? ==> r.value[k + 1].content == None)
  {
    var w := Window(history, n);
    var r := Assemble(Present(history), query, n, persona);
    AssembleShape(history, query, n, persona);
    if r.Ok? {
      forall k | 0 <= k < |Kept(w)|
        ensures Kept(w)[k] in w && Complete(Kept(w)[k])
        ensures r.value[k + 1] == ToMessage(Kept(w)[k])
      {
        KeptMembers(w, Kept(w)[k]);
      }
    }
  }

  /** An entry whose `isComplete` is false (or null) never contributes: it is
      not among the kept entries, and changing its sender or text changes
      nothing. */
  lemma IncompleteNeverContributes(history: seq<Entry>, i: nat, e: Entry, query: string, n: nat, persona: string)
    requires i < |history|
    requires history[i].Entry? && !Complete(history[i])
    requires e.Entry? && !Complete(e)
    ensures history[i] !in Kept(Window(history, n))
    ensures Assemble(Present(history[i := e]), query, n, persona) == Assemble(Present(history), query, n, persona)
  {
    var w := Window(history, n);
    KeptMembers(w, history[i]);
    var w' := Window(history[i := e], n);
    var start := |history| - |w|;
    assert |w'| == |w|;
    if i < start {
      assert w' == w;
    } else {
      assert w' == w[i - start := e];
      IncompleteEntryIgnored(w, i - start, e);
    }
  }

  /** Entries older than the window have no effect at all, not even a
      malformed one. */
  lemma OlderEntriesIgnored(older: seq<Entry>, recent: seq<Entry>, query: string, n: nat, persona: string)
    requires 0 < n <= |recent|
    ensures Assemble(Present(older + recent), query, n, persona) == Assemble(Present(recent), query, n, persona)
  {
    assert Window(older + recent, n) == Window(recent, n);
  }

  /** Two window sizes that both cover the whole history give the same prompt. */
  lemma ShortHistoryWindowIndependent(history: seq<Entry>, query: string, m: nat, n: nat, persona: string)
    requires |history| <= m && |history| <= n
    ensures Assemble(Present(history), query, m, persona) == Assemble(Present(history), query, n, persona)
  {
  }

  /** The persona only fills the system entry: whether assembly succeeds,
      and everything after the first entry, does not depend on it. */
  lemma PersonaOnlyFramesPrompt(history: Field<seq<Entry>>, query: string, n: nat, p1: string, p2: string)
    ensures var r1 := Assemble(history, query, n, p1);
            var r2 := Assemble(history, query, n, p2);
            && r1.Ok? == r2.Ok?
            && (r1.Fail? ==> r1 == r2)
            && (r1.Ok? ==> r1.value[1..] == r2.value[1..])
  {
  }
}
