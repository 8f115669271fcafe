/** The server's chat history: what say stores and what connect_to_server replays. */
module History {
  import opened CStrings
  import opened Pipeline

  const CHAT_HISTORY_SIZE := 15

  /** What a new client is sent, after these broadcasts. */
  function Replayed(all: seq<string>): (r: seq<string>)
    ensures |r| <= CHAT_HISTORY_SIZE
  {
    LastOf(TakeUpTo(all, MAX_MSGS), CHAT_HISTORY_SIZE)
  }

  function LastOf<T>(s: seq<T>, n: nat): seq<T> {
    if |s| <= n then s else s[|s| - n..]
  }

  function Responses(texts: seq<string>): (r: seq<string>)
    ensures |r| == |texts| && forall i :: 0 <= i < |r| ==> r[i] == Response(texts[i])
  {
    seq(|texts|, i requires 0 <= i < |texts| => Response(texts[i]))
  }

  class ChatHistory {
    const chat: array<string>
    var count: nat
    // Every broadcast so far, stored or not.
    ghost var all: seq<string>

    ghost predicate Valid()
      reads this, chat
    {
      && chat.Length == MAX_MSGS
      && count == (if |all| <= MAX_MSGS then |all| else MAX_MSGS)
      && chat[..count] == all[..count]
    }

    constructor ()
      ensures Valid() && all == [] && fresh(chat)
    {
      chat := new string[MAX_MSGS](_ => "");
      count, all := 0, [];
    }

    /** say's part: nothing is stored any more once the array is full. */
    method Store(text: string)
      requires Valid()
      modifies this, chat
      ensures Valid() && all == old(all) + [text]
    {
      if count < MAX_MSGS {
        chat[count] := text;
        count := count + 1;
      }
      all := all + [text];
    }

    /** connect_to_server's loop. */
    method Replay() returns (sent: seq<string>)
      requires Valid()
      ensures sent == Responses(Replayed(all))
    {
      var start := if count > CHAT_HISTORY_SIZE then count - CHAT_HISTORY_SIZE else 0;
      assert Replayed(all) == chat[start..count];
      sent := [];
      for i := start to count
        invariant sent == Responses(chat[start..i])
      {
        assert chat[start..i + 1] == chat[start..i] + [chat[i]];
        sent := sent + [Snprintf("say$ " + chat[i], RESPONSE_BUFFER_SIZE)];
      }
    }
  }

  ghost predicate NoRepeats(all: seq<string>) {
    forall i, j :: 0 <= i < j < |all| ==> all[i] != all[j]
  }

  /** A new client gets the last fifteen broadcasts, whatever they were, only while at most a hundred were
      made: for broadcasts all different, exactly then. */
  lemma ReplaysTheLastIff(all: seq<string>)
    ensures |all| <= MAX_MSGS ==> Replayed(all) == LastOf(all, CHAT_HISTORY_SIZE)
    ensures NoRepeats(all) ==> (Replayed(all) == LastOf(all, CHAT_HISTORY_SIZE) <==> |all| <= MAX_MSGS)
  {
    if |all| > MAX_MSGS && NoRepeats(all) {
      assert Replayed(all)[0] == all[85];
      assert LastOf(all, CHAT_HISTORY_SIZE)[0] == all[|all| - 15];
    }
  }

  /** Which they are, one by one: of the first hundred at most, the last fifteen at most, oldest first. */
  lemma ReplayedAt(all: seq<string>, i: nat)
    ensures var stored := if |all| <= 100 then |all| else 100;
            var sent := if stored <= 15 then stored else 15;
            |Replayed(all)| == sent && (i < sent ==> Replayed(all)[i] == all[stored - sent + i])
  {}

  /** From the hundredth on, it is always broadcasts 86 to 100 that a new client gets. */
  lemma ReplayFreezes(all: seq<string>, more: seq<string>)
    requires |all| >= MAX_MSGS
    ensures Replayed(all + more) == all[85..100]
  {
    assert (all + more)[..MAX_MSGS] == all[..MAX_MSGS];
    assert TakeUpTo(all + more, MAX_MSGS) == all[..MAX_MSGS];
  }
}
