/** cmd/scomp/pairing_prompt.go: the pairing prompt. Each method is one event of the run loop or one
    locked section, so that a sequence of calls is an order of events. */
module Pairing {
  import opened Common

  type Conn = nat  // a relay connection
  type Timer = nat // a timer channel

  const REQUESTS_CAP: nat := 4

  /** How a prompt ended. */
  datatype Fate =
    | Showing
    | Answered(line: string)   // the first line received while it was showing
    | Replaced
    | Expired
    | Aborted                  // stdin was closed

  /** One prompt that was shown: its pair id, its timer, and what became of it. */
  datatype Prompt = Prompt(id: string, timer: Timer, fate: Fate)

  /** A pair_submit that was queued on a connection. */
  datatype Submit = Submit(prompt: nat, pairID: string, pin: string)

  /** strings.TrimSpace on the blanks a terminal line can hold. */
  function TrimSpace(s: string): string
  {
    if s == "" then ""
    else if s[0] in " \t\n\r" then TrimSpace(s[1..])
    else if s[|s| - 1] in " \t\n\r" then TrimSpace(s[..|s| - 1])
    else s
  }

  predicate Blanks(s: string) { forall i :: 0 <= i < |s| ==> s[i] in " \t\n\r" }

  /** Trimming takes blanks from both ends, and all of them. */
  lemma {:induction false} TrimSpaceMeans(s: string) returns (before: string, after: string)
    ensures s == before + TrimSpace(s) + after && Blanks(before) && Blanks(after)
    ensures TrimSpace(s) != "" ==> var t := TrimSpace(s); t[0] !in " \t\n\r" && t[|t| - 1] !in " \t\n\r"
    decreases |s|
  {
    before, after := "", "";
    if s == "" {
    } else if s[0] in " \t\n\r" {
      before, after := TrimSpaceMeans(s[1..]);
      assert s == [s[0]] + s[1..];
      before := [s[0]] + before;
    } else if s[|s| - 1] in " \t\n\r" {
      before, after := TrimSpaceMeans(s[..|s| - 1]);
      assert s == s[..|s| - 1] + [s[|s| - 1]];
      after := after + [s[|s| - 1]];
    }
  }

  /** Some prompt is showing: it is the last one. */
  predicate Shown(prompts: seq<Prompt>) { prompts != [] && prompts[|prompts| - 1].fate.Showing? }

  /** The prompt that is showing, if any, gets its fate; prompts that ended keep theirs. */
  function Ended(prompts: seq<Prompt>, fate: Fate): seq<Prompt>
  {
    if Shown(prompts) then prompts[|prompts| - 1 := prompts[|prompts| - 1].(fate := fate)] else prompts
  }

  /** The sender is the newest connection's, and is there until that very connection disconnects. */
  ghost predicate SenderOk(submit: Option<Conn>, gen: nat, disconnected: set<nat>)
  {
    && (submit.Some? ==> submit.value == gen) && (submit.Some? <==> gen > 0 && gen !in disconnected)
    && (forall g :: g in disconnected ==> g <= gen)
  }

  /** At most the last prompt is showing, exactly when pairID names it, on its own timer. */
  ghost predicate PromptsOk(prompts: seq<Prompt>, pairID: string, expired: Option<Timer>, timers: nat)
  {
    && timers == |prompts| && (forall i :: 0 <= i < |prompts| ==> prompts[i].id != "" && prompts[i].timer == i)
    && (forall i :: 0 <= i < |prompts| - 1 ==> !prompts[i].fate.Showing?)
    && (pairID != "" <==> Shown(prompts))
    && (pairID != "" ==> prompts[|prompts| - 1].id == pairID && expired == Some(prompts[|prompts| - 1].timer))
    && (pairID == "" ==> expired.None?)
  }

  /** s answers its own prompt with that prompt's line. */
  predicate SubmitOk(s: Submit, prompts: seq<Prompt>)
  {
    && s.prompt < |prompts| && prompts[s.prompt].fate.Answered? && s.pairID == prompts[s.prompt].id
    && s.pin == TrimSpace(prompts[s.prompt].fate.line) && s.pin != ""
  }

  /** Every submission answers its prompt, and there is at most one per prompt. */
  ghost predicate SubmitsOk(submits: seq<Submit>, prompts: seq<Prompt>)
  {
    && (forall k :: 0 <= k < |submits| ==> SubmitOk(submits[k], prompts))
    && (forall j, k :: 0 <= j < k < |submits| ==> submits[j].prompt != submits[k].prompt)
  }

  /** Ending or showing prompts does not disturb earlier submissions. */
  lemma SubmitsStay(submits: seq<Submit>, prompts: seq<Prompt>, fate: Fate, more: seq<Prompt>)
    requires SubmitsOk(submits, prompts)
    ensures SubmitsOk(submits, Ended(prompts, fate) + more) && SubmitsOk(submits, Ended(prompts, fate))
  {
    hide TrimSpace;
    var ps := Ended(prompts, fate);
    forall k | 0 <= k < |submits| ensures SubmitOk(submits[k], ps) && SubmitOk(submits[k], ps + more) {
      assert SubmitOk(submits[k], prompts);
      assert ps[submits[k].prompt] == prompts[submits[k].prompt];
    }
  }

  lemma EndedOk(prompts: seq<Prompt>, pairID: string, expired: Option<Timer>, timers: nat, fate: Fate)
    requires PromptsOk(prompts, pairID, expired, timers) && !fate.Showing?
    ensures PromptsOk(Ended(prompts, fate), "", None, timers) && !Shown(Ended(prompts, fate))
  {
  }

  lemma ShownOk(prompts: seq<Prompt>, timers: nat, id: string)
    requires PromptsOk(prompts, "", None, timers) && id != ""
    ensures PromptsOk(prompts + [Prompt(id, timers, Showing)], id, Some(timers), timers + 1)
  {
  }

  /** The prompt that was showing had no submission yet, so its answer is its first. */
  lemma AnswerOk(submits: seq<Submit>, prompts: seq<Prompt>, line: string)
    requires SubmitsOk(submits, prompts) && Shown(prompts) && TrimSpace(line) != ""
    ensures var k := |prompts| - 1;
      SubmitsOk(submits + [Submit(k, prompts[k].id, TrimSpace(line))], Ended(prompts, Answered(line)))
  {
    SubmitsStay(submits, prompts, Answered(line), []);
    hide TrimSpace;
    forall j | 0 <= j < |submits| ensures submits[j].prompt != |prompts| - 1 {
      assert SubmitOk(submits[j], prompts);
    }
  }

  class Prompter {
    var submit: Option<Conn> // current connection's sender; None when disconnected
    var gen: nat             // connections installed so far; a connection is known by its number
    var requests: seq<string>

    // the run loop
    var pairID: string
    var expired: Option<Timer>
    var noStdin: bool
    var timers: nat          // timers created so far

    ghost var prompts: seq<Prompt>  // every prompt ever shown, oldest first
    ghost var submits: seq<Submit>
    ghost var disconnected: set<nat>

    ghost predicate Valid()
      reads this
    {
      && SenderOk(submit, gen, disconnected)
      && PromptsOk(prompts, pairID, expired, timers) && (noStdin ==> pairID == "")
      && SubmitsOk(submits, prompts)
      && (forall i :: 0 <= i < |requests| ==> requests[i] != "")
    }

    constructor ()
      ensures Valid() && prompts == [] && submits == []
    {
      submit, gen, requests := None, 0, [];
      pairID, expired, noStdin, timers := "", None, false, 0;
      prompts, submits, disconnected := [], [], {};
    }

    /** A new connection installs its sender. */
    method Connected() returns (g: nat)
      requires Valid()
      modifies this`submit, this`gen
      ensures Valid() && g == gen == old(gen) + 1 && submit == Some(g)
    {
      gen := gen + 1;
      g := gen;
      submit := Some(g);
    }

    /** The returned func: a stale disconnect never removes a newer connection's sender. */
    method Disconnected(g: nat)
      requires Valid() && g <= gen
      modifies this`submit, this`disconnected
      ensures Valid() && submit == if g == gen then None else old(submit)
    {
      disconnected := disconnected + {g};
      if gen == g {
        submit := None;
      }
    }

    /** request never blocks: it drops when the queue is full. */
    method Request(id: string)
      requires Valid() && id != ""
      modifies this`requests
      ensures Valid()
      ensures requests == if |old(requests)| < REQUESTS_CAP then old(requests) + [id] else old(requests)
    {
      if |requests| < REQUESTS_CAP {
        requests := requests + [id];
      }
    }

    /** The loop takes a request: it shows it in place of any prompt, on a fresh timer. */
    method TakeRequest()
      requires Valid() && requests != []
      modifies this`requests, this`pairID, this`expired, this`prompts, this`timers
      ensures Valid() && requests == old(requests)[1..]
      ensures noStdin ==> prompts == old(prompts)
      ensures !noStdin ==> prompts == Ended(old(prompts), Replaced) + [Prompt(old(requests)[0], |old(prompts)|, Showing)]
    {
      var id := requests[0];
      requests := requests[1..];
      if noStdin {
        return;
      }
      hide PromptsOk, SubmitsOk, Ended;
      EndedOk(prompts, pairID, expired, timers, Replaced);
      SubmitsStay(submits, prompts, Replaced, [Prompt(id, timers, Showing)]);
      ShownOk(Ended(prompts, Replaced), timers, id);
      prompts := Ended(prompts, Replaced);
      pairID, expired := "", None;
      pairID := id;
      var timer := timers;
      timers := timers + 1;
      expired := Some(timer);
      prompts := prompts + [Prompt(id, timer, Showing)];
    }

    /** A line from stdin. `accepted` is what the sender, if there is one, reports. */
    method TakeLine(line: string, accepted: bool)
      requires Valid() && !noStdin
      modifies this`pairID, this`expired, this`prompts, this`submits
      ensures Valid()
      ensures prompts == Ended(old(prompts), Answered(line))
      ensures if old(pairID) != "" && TrimSpace(line) != "" && submit.Some? && accepted
        then submits == old(submits) + [Submit(|prompts| - 1, old(pairID), TrimSpace(line))]
        else submits == old(submits)
    {
      if pairID == "" {
        return;
      }
      var id := pairID;
      EndedOk(prompts, pairID, expired, timers, Answered(line));
      SubmitsStay(submits, prompts, Answered(line), []);
      if TrimSpace(line) != "" {
        AnswerOk(submits, prompts, line);
      }
      hide PromptsOk, SubmitsOk, TrimSpace;
      prompts := Ended(prompts, Answered(line));
      pairID, expired := "", None;
      var pin := TrimSpace(line);
      if pin == "" {
        return;
      }
      if submit.Some? && accepted {
        submits := submits + [Submit(|prompts| - 1, id, pin)];
      }
    }

    /** Stdin was closed. */
    method LinesClosed()
      requires Valid() && !noStdin
      modifies this`pairID, this`expired, this`noStdin, this`prompts
      ensures Valid() && noStdin && prompts == Ended(old(prompts), Aborted)
    {
      EndedOk(prompts, pairID, expired, timers, Aborted);
      SubmitsStay(submits, prompts, Aborted, []);
      hide PromptsOk, SubmitsOk, Ended;
      noStdin := true;
      prompts := Ended(prompts, Aborted);
      pairID, expired := "", None;
    }

    /** A timer fires. The loop only listens to the current prompt's timer, so an old timer never
        expires a newer prompt. */
    method TimerFires(timer: Timer)
      requires Valid()
      modifies this`pairID, this`expired, this`prompts
      ensures Valid()
      ensures prompts == if old(Shown(prompts)) && old(prompts[|prompts| - 1]).timer == timer
        then Ended(old(prompts), Expired) else old(prompts)
    {
      EndedOk(prompts, pairID, expired, timers, Expired);
      SubmitsStay(submits, prompts, Expired, []);
      if expired == Some(timer) {
        prompts := Ended(prompts, Expired);
        pairID, expired := "", None;
      }
    }
  }

  /** Over every order of events: each prompt has at most one submission, which carries its own pair id
      and the first line received while it was showing; a replaced, expired or aborted prompt has none. */
  lemma SubmissionsAreAnswers(p: Prompter, i: nat)
    requires p.Valid() && i < |p.prompts|
    ensures |set k | 0 <= k < |p.submits| && p.submits[k].prompt == i| <= 1
    ensures forall k :: 0 <= k < |p.submits| && p.submits[k].prompt == i ==>
      && p.prompts[i].fate.Answered? && p.submits[k].pairID == p.prompts[i].id
      && p.submits[k].pin == TrimSpace(p.prompts[i].fate.line)
  {
    var ks := set k | 0 <= k < |p.submits| && p.submits[k].prompt == i;
    if k :| k in ks {
      assert ks == {k};
    }
  }
}
