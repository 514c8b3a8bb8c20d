/** The part of a conversation that goes into a prompt. */
module History {
  import SeqFacts

  datatype Message = Message(role: string, content: string)

  datatype Turn = Turn(question: Message, answer: Message)

  /** An answered question starts here. */
  predicate TurnAt(history: seq<Message>, i: nat)
  {
    i + 1 < |history| && history[i].role == "user" && history[i + 1].role == "assistant"
  }

  /** Where the scan finds turns, from an index on. */
  function TurnStarts(history: seq<Message>, index: nat): seq<nat>
    decreases |history| - index
  {
    if index + 1 >= |history| then []
    else if TurnAt(history, index) then [index] + TurnStarts(history, index + 2)
    else TurnStarts(history, index + 1)
  }

  function TurnsAt(history: seq<Message>, starts: seq<nat>): (turns: seq<Turn>)
    requires forall k :: 0 <= k < |starts| ==> starts[k] + 1 < |history|
    ensures |turns| == |starts|
    ensures forall k :: 0 <= k < |starts| ==> turns[k] == Turn(history[starts[k]], history[starts[k] + 1])
  {
    if starts == [] then [] else [Turn(history[starts[0]], history[starts[0] + 1])] + TurnsAt(history, starts[1..])
  }

  /** Answered questions from an index on, in order and not overlapping. */
  ghost predicate AreTurns(starts: seq<nat>, history: seq<Message>, index: nat)
  {
    && (forall k :: 0 <= k < |starts| ==>
         index <= starts[k] < |history| - 1
         && history[starts[k]].role == "user" && history[starts[k] + 1].role == "assistant")
    && (forall k :: 0 < k < |starts| ==> starts[k - 1] + 2 <= starts[k])
  }

  lemma AreTurnsPush(starts: seq<nat>, history: seq<Message>, index: nat)
    requires TurnAt(history, index) && AreTurns(starts, history, index + 2)
    ensures AreTurns([index] + starts, history, index)
  {
    var all := [index] + starts;
    forall k | 0 < k < |all|
      ensures all[k - 1] + 2 <= all[k]
    {
      if k > 1 { assert all[k] == starts[k - 1] && all[k - 1] == starts[k - 2]; }
    }
  }

  /** The scan finds only answered questions, and no two of them overlap. */
  lemma {:induction false} FindsOnlyTurns(history: seq<Message>, index: nat)
    ensures AreTurns(TurnStarts(history, index), history, index)
    decreases |history| - index
  {
    if index + 1 < |history| {
      if TurnAt(history, index) {
        FindsOnlyTurns(history, index + 2);
        AreTurnsPush(TurnStarts(history, index + 2), history, index);
      } else {
        FindsOnlyTurns(history, index + 1);
      }
    }
  }

  /** It finds all of them. */
  lemma {:induction false} FindsEveryTurn(history: seq<Message>, index: nat, i: nat)
    requires index <= i < |history| - 1 && history[i].role == "user" && history[i + 1].role == "assistant"
    ensures i in TurnStarts(history, index)
    decreases |history| - index
  {
    if TurnAt(history, index) {
      if i > index { FindsEveryTurn(history, index + 2, i); }
    } else {
      FindsEveryTurn(history, index + 1, i);
    }
  }

  function Turns(history: seq<Message>): seq<Turn>
  {
    FindsOnlyTurns(history, 0);
    TurnsAt(history, TurnStarts(history, 0))
  }

  function Chars(turns: seq<Turn>): nat
  {
    if turns == [] then 0 else |turns[0].question.content| + |turns[0].answer.content| + Chars(turns[1..])
  }

  /** The newest turns from m on keep both budgets. No turns always do. */
  predicate Fits(turns: seq<Turn>, maxMessages: int, maxChars: int, m: nat)
    requires m <= |turns|
  {
    m == |turns| || (2 * (|turns| - m) <= maxMessages && Chars(turns[m..]) <= maxChars)
  }

  /** Takes in older turns until one no longer fits. */
  function KeptFrom(turns: seq<Turn>, maxMessages: int, maxChars: int, m: nat): (r: nat)
    requires m <= |turns|
    ensures r <= m
  {
    if m == 0 || 2 * (|turns| - m) + 2 > maxMessages || Chars(turns[m - 1..]) > maxChars then m
    else KeptFrom(turns, maxMessages, maxChars, m - 1)
  }

  lemma CharsPush(turns: seq<Turn>, m: nat)
    requires 0 < m <= |turns|
    ensures Chars(turns[m - 1..]) == |turns[m - 1].question.content| + |turns[m - 1].answer.content| + Chars(turns[m..])
  {
    assert turns[m - 1..][1..] == turns[m..];
  }

  lemma {:induction false} OlderNeedsMore(turns: seq<Turn>, older: nat, m: nat)
    requires older <= m <= |turns|
    ensures Chars(turns[older..]) >= Chars(turns[m..])
    decreases m - older
  {
    if older < m {
      CharsPush(turns, m);
      OlderNeedsMore(turns, older, m - 1);
    }
  }

  /** What is kept fits, and no longer run of newest turns does. */
  lemma {:induction false} KeepsLongest(turns: seq<Turn>, maxMessages: int, maxChars: int, m: nat, older: nat)
    requires m <= |turns| && Fits(turns, maxMessages, maxChars, m)
    ensures Fits(turns, maxMessages, maxChars, KeptFrom(turns, maxMessages, maxChars, m))
    ensures older < KeptFrom(turns, maxMessages, maxChars, m) ==> !Fits(turns, maxMessages, maxChars, older)
  {
    if m == 0 || 2 * (|turns| - m) + 2 > maxMessages || Chars(turns[m - 1..]) > maxChars {
      if older < m { OlderNeedsMore(turns, older, m - 1); }
    } else {
      KeepsLongest(turns, maxMessages, maxChars, m - 1, older);
    }
  }

  function Messages(turns: seq<Turn>): seq<Message>
  {
    if turns == [] then [] else [turns[0].question, turns[0].answer] + Messages(turns[1..])
  }

  function Reversed(turns: seq<Turn>): seq<Turn>
  {
    if turns == [] then [] else [turns[|turns| - 1]] + Reversed(turns[..|turns| - 1])
  }

  ghost predicate TurnsOf(turns: seq<Turn>, history: seq<Message>, starts: seq<nat>)
  {
    |turns| == |starts| && forall k :: 0 <= k < |turns| ==>
      starts[k] + 1 < |history| && turns[k] == Turn(history[starts[k]], history[starts[k] + 1])
  }

  method CollectTurns(history: seq<Message>) returns (turns: seq<Turn>)
    ensures turns == Turns(history)
  {
    turns := [];
    FindsOnlyTurns(history, 0);
    ghost var starts: seq<nat> := [];
    var index := 0;
    while index + 1 < |history|
      invariant starts + TurnStarts(history, index) == TurnStarts(history, 0)
      invariant TurnsOf(turns, history, starts)
      decreases |history| - index
    {
      var first, second := history[index], history[index + 1];
      if first.role == "user" && second.role == "assistant" {
        SeqFacts.AppendAssociative(starts, [index], TurnStarts(history, index + 2));
        turns := turns + [Turn(first, second)];
        starts := starts + [index];
        index := index + 2;
      } else {
        index := index + 1;
      }
    }
    assert starts + [] == starts;
  }

  lemma ReversedPush(selected: seq<Turn>, turns: seq<Turn>, m: nat)
    requires 0 < m <= |turns| && Reversed(selected) == turns[m..]
    ensures Reversed(selected + [turns[m - 1]]) == turns[m - 1..]
  {
    assert (selected + [turns[m - 1]])[..|selected|] == selected;
    assert [turns[m - 1]] + turns[m..] == turns[m - 1..];
  }

  /** What the loop over the older turns has selected when it has come down to turn m. */
  ghost predicate Selected(selected: seq<Turn>, used: int, turns: seq<Turn>, m: nat)
  {
    m <= |turns| && |selected| == |turns| - m && Reversed(selected) == turns[m..] && used == Chars(turns[m..])
  }

  lemma SelectOne(selected: seq<Turn>, used: int, turns: seq<Turn>, m: nat)
    requires 0 < m && Selected(selected, used, turns, m)
    ensures var turn := turns[m - 1];
            Selected(selected + [turn], used + |turn.question.content| + |turn.answer.content|, turns, m - 1)
  {
    CharsPush(turns, m);
    ReversedPush(selected, turns, m);
  }

  lemma KeepsGoing(turns: seq<Turn>, maxMessages: int, maxChars: int, m: nat)
    requires 0 < m <= |turns|
    ensures var size := |turns[m - 1].question.content| + |turns[m - 1].answer.content|;
            KeptFrom(turns, maxMessages, maxChars, m) ==
            if 2 * (|turns| - m) + 2 > maxMessages || Chars(turns[m..]) + size > maxChars then m
            else KeptFrom(turns, maxMessages, maxChars, m - 1)
  {
    CharsPush(turns, m);
  }

  /** The longest run of newest turns within both budgets, oldest first. */
  method BoundedHistory(history: seq<Message>, maxMessages: int, maxChars: int) returns (r: seq<Message>)
    ensures var turns := Turns(history);
            r == Messages(turns[KeptFrom(turns, maxMessages, maxChars, |turns|)..])
  {
    var turns := CollectTurns(history);
    var selected: seq<Turn>, used := [], 0;
    var m := |turns|;
    while m > 0
      invariant 0 <= m && Selected(selected, used, turns, m)
      invariant KeptFrom(turns, maxMessages, maxChars, m) == KeptFrom(turns, maxMessages, maxChars, |turns|)
    {
      var turn := turns[m - 1];
      KeepsGoing(turns, maxMessages, maxChars, m);
      if |selected| * 2 + 2 > maxMessages ||
        used + |turn.question.content| + |turn.answer.content| > maxChars { break; }
      SelectOne(selected, used, turns, m);
      selected := selected + [turn];
      used := used + |turn.question.content| + |turn.answer.content|;
      m := m - 1;
    }
    r := Messages(Reversed(selected));
  }

  lemma {:induction false} MessagesAlternate(turns: seq<Turn>, k: nat)
    requires k < |turns|
    ensures |Messages(turns)| == 2 * |turns|
    ensures Messages(turns)[2 * k] == turns[k].question && Messages(turns)[2 * k + 1] == turns[k].answer
  {
    if k > 0 {
      MessagesAlternate(turns[1..], k - 1);
    } else if |turns| > 1 {
      MessagesAlternate(turns[1..], 0);
    } else {
      assert Messages(turns[1..]) == [];
    }
  }

  lemma TurnMember(history: seq<Message>, k: nat)
    requires k < |Turns(history)|
    ensures Turns(history)[k].question.role == "user" && Turns(history)[k].answer.role == "assistant"
  {
    FindsOnlyTurns(history, 0);
  }

  function ContentSize(messages: seq<Message>): nat
  {
    if messages == [] then 0 else ContentSize(messages[..|messages| - 1]) + |messages[|messages| - 1].content|
  }

  lemma {:induction false} ContentPush(a: Message, b: Message, rest: seq<Message>)
    ensures ContentSize([a, b] + rest) == |a.content| + |b.content| + ContentSize(rest)
  {
    var all := [a, b] + rest;
    if rest == [] {
      assert all == [a, b] && all[..1] == [a] && [a][..0] == [];
    } else {
      var n := |rest| - 1;
      assert all[..n + 2] == [a, b] + rest[..n];
      ContentPush(a, b, rest[..n]);
    }
  }

  lemma {:induction false} SizesAgree(turns: seq<Turn>)
    ensures Chars(turns) == ContentSize(Messages(turns)) && |Messages(turns)| == 2 * |turns|
  {
    if turns != [] {
      SizesAgree(turns[1..]);
      ContentPush(turns[0].question, turns[0].answer, Messages(turns[1..]));
    }
  }

  /** What goes into the prompt are the messages of the newest turns, no more and no longer than allowed;
      and one turn more, or any number more, would be too many or too long. */
  lemma LongestWithinBudgets(history: seq<Message>, maxMessages: nat, maxChars: nat, older: nat)
    ensures var turns := Turns(history);
            var from := KeptFrom(turns, maxMessages, maxChars, |turns|);
            && |Messages(turns[from..])| <= maxMessages && ContentSize(Messages(turns[from..])) <= maxChars
            && (older < from ==>
                  |Messages(turns[older..])| > maxMessages || ContentSize(Messages(turns[older..])) > maxChars)
  {
    var turns := Turns(history);
    var from := KeptFrom(turns, maxMessages, maxChars, |turns|);
    KeepsLongest(turns, maxMessages, maxChars, |turns|, older);
    SizesAgree(turns[from..]);
    if older < from { SizesAgree(turns[older..]); }
  }

  /** The history that is kept has at most as many messages and characters as allowed, and consists of
      questions each followed by its answer. */
  lemma KeptWithinBudgets(history: seq<Message>, maxMessages: nat, maxChars: nat, k: nat)
    ensures var turns := Turns(history);
            var kept := turns[KeptFrom(turns, maxMessages, maxChars, |turns|)..];
            && 2 * |kept| <= maxMessages && Chars(kept) <= maxChars
            && (k < |kept| ==>
                 |Messages(kept)| == 2 * |kept| &&
                 Messages(kept)[2 * k].role == "user" && Messages(kept)[2 * k + 1].role == "assistant")
  {
    var turns := Turns(history);
    var from := KeptFrom(turns, maxMessages, maxChars, |turns|);
    KeepsLongest(turns, maxMessages, maxChars, |turns|, 0);
    if k < |turns| - from {
      MessagesAlternate(turns[from..], k);
      TurnMember(history, from + k);
    }
  }
}
