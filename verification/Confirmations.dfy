/** The table of confirmation prompts (modules/discordbot/ops.go): bounded, each prompt good for one answer. */
module Confirmations {
  import opened Wrappers
  import opened Sets

  datatype Prompt = Prompt(kind: string, ticketId: string, actorId: string, messageId: string, reference: string,
                           expires: int)

  type Table = map<string, Prompt>

  const CAPACITY := 1000

  function Unexpired(t: Table, now: int): Table {
    map k | k in t && now <= t[k].expires :: t[k]
  }

  /** evicted is the entry that goes when the table is full. */
  function Put(t: Table, key: string, prompt: Prompt, now: int, evicted: string): Table {
    var live := Unexpired(t, now);
    (if |live| >= CAPACITY then live - {evicted} else live)[key := prompt]
  }

  predicate Answers(t: Table, key: string, messageId: string) {
    key in t && t[key].messageId == messageId
  }

  function Take(t: Table, key: string, messageId: string): Table {
    if Answers(t, key, messageId) then t - {key} else t
  }

  function Taken(t: Table, key: string, messageId: string, now: int): Option<Prompt> {
    if Answers(t, key, messageId) && now <= t[key].expires then Some(t[key]) else None
  }

  lemma LiveKeys(t: Table, now: int)
    ensures Unexpired(t, now).Keys == set k | k in t && now <= t[k].expires
    ensures |Unexpired(t, now)| == |set k | k in t && now <= t[k].expires|
  {
    assert Unexpired(t, now).Keys == set k | k in t && now <= t[k].expires;
    assert |Unexpired(t, now).Keys| == |Unexpired(t, now)|;
  }

  class Bot {
    var confirms: Table

    constructor ()
      ensures confirms == map[]
    {
      confirms := map[];
    }

    /** Go visits a map in any order, so the evicted entry is any one of those left. */
    method PutConfirm(key: string, prompt: Prompt, now: int) returns (ghost evicted: string)
      modifies this
      ensures confirms == Put(old(confirms), key, prompt, now, evicted)
      ensures |Unexpired(old(confirms), now)| >= CAPACITY ==> evicted in Unexpired(old(confirms), now)
      ensures key in confirms && confirms[key] == prompt
      ensures forall k :: k in confirms && k != key ==>
                k in old(confirms) && now <= confirms[k].expires && confirms[k] == old(confirms)[k]
      ensures var live := set k | k in old(confirms) && now <= old(confirms)[k].expires;
              forall k :: k in live && k != key && k !in confirms ==> k == evicted && |live| >= 1000
    {
      var todo := confirms.Keys;
      while todo != {}
        invariant todo <= old(confirms.Keys)
        invariant confirms == map k | k in old(confirms) && (k in todo || now <= old(confirms)[k].expires) ::
                    old(confirms)[k]
        decreases todo
      {
        var k :| k in todo;
        todo := todo - {k};
        if now > confirms[k].expires {
          confirms := confirms - {k};
        }
      }
      assert confirms == Unexpired(old(confirms), now);
      evicted := "";
      if |confirms| >= CAPACITY {
        var k :| k in confirms;
        evicted := k;
        confirms := confirms - {k};
      }
      confirms := confirms[key := prompt];
      LiveKeys(old(confirms), now);
    }

    method TakeConfirm(key: string, messageId: string, now: int) returns (r: Option<Prompt>)
      modifies this
      ensures confirms == Take(old(confirms), key, messageId)
      ensures r == Taken(old(confirms), key, messageId, now)
      ensures var there := key in old(confirms) && old(confirms)[key].messageId == messageId;
              && confirms == (if there then old(confirms) - {key} else old(confirms))
              && (r.Some? <==> there && now <= old(confirms)[key].expires)
              && (r.Some? ==> r.value == old(confirms)[key])
    {
      if key !in confirms || confirms[key].messageId != messageId {
        return None;
      }
      var c := confirms[key];
      confirms := confirms - {key};
      if now > c.expires {
        return None;
      }
      return Some(c);
    }
  }

  // Runs

  datatype Event =
    | PutEvent(key: string, prompt: Prompt, now: int, evicted: string)
    | TakeEvent(key: string, messageId: string, now: int)

  function Step(t: Table, e: Event): Table {
    match e
    case PutEvent(key, prompt, now, evicted) => Put(t, key, prompt, now, evicted)
    case TakeEvent(key, messageId, now) => Take(t, key, messageId)
  }

  function Run(events: seq<Event>): Table {
    if events == [] then map[] else Step(Run(events[..|events| - 1]), events[|events| - 1])
  }

  /** An eviction takes an entry that is there. */
  ghost predicate Possible(events: seq<Event>) {
    forall i :: 0 <= i < |events| && events[i].PutEvent? ==>
      var live := Unexpired(Run(events[..i]), events[i].now);
      |live| >= CAPACITY ==> events[i].evicted in live
  }

  lemma UnexpiredIsSmaller(t: Table, now: int)
    ensures |Unexpired(t, now)| <= |t|
  {
    SubsetSize(Unexpired(t, now).Keys, t.Keys);
    assert |Unexpired(t, now).Keys| == |Unexpired(t, now)| && |t.Keys| == |t|;
  }

  lemma RemovedSize(t: Table, k: string)
    requires k in t
    ensures |t - {k}| == |t| - 1
  {
    assert (t - {k}).Keys == t.Keys - {k};
    assert |(t - {k}).Keys| == |t - {k}| && |t.Keys| == |t|;
  }

  lemma AddedSize(t: Table, k: string, p: Prompt)
    ensures |t[k := p]| <= |t| + 1
  {
    assert t[k := p].Keys == t.Keys + {k};
    assert |t[k := p].Keys| == |t[k := p]| && |t.Keys| == |t|;
  }

  /** The table never grows past its capacity. */
  lemma {:induction false} NeverOverfull(events: seq<Event>)
    requires Possible(events)
    ensures |Run(events)| <= 1000
  {
    if events != [] {
      var front, e := events[..|events| - 1], events[|events| - 1];
      assert forall i :: 0 <= i < |front| ==> front[..i] == events[..i];
      NeverOverfull(front);
      var t := Run(front);
      if e.PutEvent? {
        UnexpiredIsSmaller(t, e.now);
        var live := Unexpired(t, e.now);
        if |live| >= CAPACITY {
          RemovedSize(live, e.evicted);
        }
        AddedSize(if |live| >= CAPACITY then live - {e.evicted} else live, e.key, e.prompt);
      } else if Answers(t, e.key, e.messageId) {
        RemovedSize(t, e.key);
      }
    }
  }

  /** What ends the life of a prompt stored under a key. */
  predicate Ends(t: Table, e: Event, key: string, prompt: Prompt) {
    match e
    case PutEvent(k, _, now, evicted) =>
      k == key || now > prompt.expires || (|Unexpired(t, now)| >= CAPACITY && evicted == key)
    case TakeEvent(k, messageId, _) => k == key && messageId == prompt.messageId
  }

  /** Event j put the prompt, and nothing up to event i ended it. */
  ghost predicate Outstanding(events: seq<Event>, j: nat, i: nat, key: string, prompt: Prompt) {
    && j < i <= |events|
    && events[j].PutEvent? && events[j].key == key && events[j].prompt == prompt
    && forall m :: j < m < i ==> !Ends(Run(events[..m]), events[m], key, prompt)
  }

  /** The prompt of event j was outstanding before event i, and event i does not end it. */
  ghost predicate Survives(events: seq<Event>, j: nat, i: nat, key: string, prompt: Prompt) {
    i < |events| && Outstanding(events, j, i, key, prompt) && !Ends(Run(events[..i]), events[i], key, prompt)
  }

  lemma StoredByThis(t: Table, e: Event, key: string, prompt: Prompt)
    ensures key in Step(t, e) && Step(t, e)[key] == prompt
            <==> (e.PutEvent? && e.key == key && e.prompt == prompt)
                 || (key in t && t[key] == prompt && !Ends(t, e, key, prompt))
  {
  }

  /** An outstanding prompt was put by the last event, or was outstanding before it and survived it. */
  lemma OutstandingNext(events: seq<Event>, j: nat, i: nat, key: string, prompt: Prompt)
    requires 0 < i <= |events|
    ensures Outstanding(events, j, i, key, prompt)
            <==> if j == i - 1 then events[j].PutEvent? && events[j].key == key && events[j].prompt == prompt
                 else Survives(events, j, i - 1, key, prompt)
  {
    hide Ends, Run;
  }

  lemma SurvivesMeans(events: seq<Event>, i: nat, key: string, prompt: Prompt)
    requires i < |events|
    ensures forall j: nat :: Survives(events, j, i, key, prompt)
              <==> Outstanding(events, j, i, key, prompt) && !Ends(Run(events[..i]), events[i], key, prompt)
  {
    hide Outstanding, Ends, Run;
  }

  lemma NothingYet(events: seq<Event>, i: nat, key: string, prompt: Prompt)
    ensures !Outstanding(events, i, i, key, prompt)
    ensures i == 0 ==> forall j: nat :: !Outstanding(events, j, i, key, prompt)
  {
  }

  lemma RunNext(events: seq<Event>, i: nat)
    requires 0 < i <= |events|
    ensures Run(events[..i]) == Step(Run(events[..i - 1]), events[i - 1])
  {
    assert events[..i][..i - 1] == events[..i - 1];
  }

  lemma RunNothing(events: seq<Event>)
    ensures Run(events[..0]) == map[]
  {
  }

  /** The table holds exactly the outstanding prompts. */
  lemma {:induction false} HoldsOutstanding(events: seq<Event>, i: nat, key: string, prompt: Prompt)
    requires i <= |events|
    ensures key in Run(events[..i]) && Run(events[..i])[key] == prompt
            <==> exists j: nat :: Outstanding(events, j, i, key, prompt)
  {
    hide *;
    if i == 0 {
      RunNothing(events);
      NothingYet(events, 0, key, prompt);
    } else {
      var last := i - 1;
      HoldsOutstanding(events, last, key, prompt);
      RunNext(events, i);
      StoredByThis(Run(events[..last]), events[last], key, prompt);
      NothingYet(events, last, key, prompt);
      SurvivesMeans(events, last, key, prompt);
      forall j: nat
        ensures Outstanding(events, j, i, key, prompt)
                <==> if j == last then events[j].PutEvent? && events[j].key == key && events[j].prompt == prompt
                     else Survives(events, j, last, key, prompt)
      {
        OutstandingNext(events, j, i, key, prompt);
      }
    }
  }

  /** A take fires exactly for an outstanding prompt of its message that has not expired. */
  lemma TakeFiresExactly(events: seq<Event>, i: nat, prompt: Prompt)
    requires i < |events| && events[i].TakeEvent?
    ensures Taken(Run(events[..i]), events[i].key, events[i].messageId, events[i].now) == Some(prompt)
            <==> prompt.messageId == events[i].messageId && events[i].now <= prompt.expires
                 && exists j: nat :: Outstanding(events, j, i, events[i].key, prompt)
  {
    HoldsOutstanding(events, i, events[i].key, prompt);
  }

  ghost predicate Fires(events: seq<Event>, i: nat, key: string) {
    i < |events| && events[i].TakeEvent? && events[i].key == key
    && Taken(Run(events[..i]), key, events[i].messageId, events[i].now).Some?
  }

  /** Each prompt fires at most once: between two takes that fire under a key there is a put under it. */
  lemma FiresOnce(events: seq<Event>, i1: nat, i2: nat, key: string)
    requires i1 < i2 && Fires(events, i1, key) && Fires(events, i2, key)
    ensures exists j :: i1 < j < i2 && events[j].PutEvent? && events[j].key == key
  {
    var prompt := Run(events[..i2])[key];
    HoldsOutstanding(events, i2, key, prompt);
    var j: nat :| Outstanding(events, j, i2, key, prompt);
    if j < i1 {
      TakenPromptIsGone(events, j, i1, i2, key, prompt);
    }
  }

  /** A prompt that outlives a take that fires under its key was put after it. */
  lemma TakenPromptIsGone(events: seq<Event>, j: nat, i1: nat, i2: nat, key: string, prompt: Prompt)
    requires Outstanding(events, j, i2, key, prompt) && i1 < i2 && Fires(events, i1, key)
    ensures j >= i1
  {
    if j < i1 {
      assert Outstanding(events, j, i1, key, prompt);
      HoldsOutstanding(events, i1, key, prompt);
      assert false;
    }
  }
}
