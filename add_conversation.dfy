/**
 * `AddConversationScreen` of the family app: the topic chips a family member
 * toggles, and the guard and payload of saving the conversation.
 */
module AddConversation {
  import opened Seqs
  import opened Text
  import opened MobileApi

  /** `(t) => t !== topic`. */
  function IsNot(topic: string): string -> bool {
    (t: string) => t != topic
  }

  /**
   * `toggleTopic`: a selected topic is removed (every occurrence of it), an
   * unselected one is appended at the end. No other topic is affected.
   */
  function ToggleTopic(selected: seq<string>, topic: string): (next: seq<string>)
    ensures topic !in selected ==> next == selected + [topic]
    ensures topic in selected ==> topic !in next
    ensures forall t | t != topic :: multiset(next)[t] == multiset(selected)[t]
  {
    if topic in selected then
      FilterCounts(selected, IsNot(topic));
      Filter(selected, IsNot(topic))
    else
      selected + [topic]
  }

  /** Filtering out what a sequence does not hold changes nothing. */
  lemma FilterAbsent(s: seq<string>, topic: string)
    requires topic !in s
    ensures Filter(s, IsNot(topic)) == s
  {
    forall i | 0 <= i < |s| ensures IsNot(topic)(s[i]) {
      assert s[i] in s;
    }
    FilterKeepsAll(s, IsNot(topic));
  }

  /**
   * Removing a selected topic keeps the other topics in their order: with the
   * topic between two runs of other topics, the two runs are joined.
   */
  lemma RemoveKeepsOrder(before: seq<string>, topic: string, after: seq<string>)
    requires topic !in before && topic !in after
    ensures ToggleTopic(before + [topic] + after, topic) == before + after
  {
    var s := before + [topic] + after;
    assert s[|before|] == topic;
    assert ToggleTopic(s, topic) == Filter(s, IsNot(topic));
    FilterAroundTopic(before, topic, after);
  }

  lemma FilterAroundTopic(before: seq<string>, topic: string, after: seq<string>)
    requires topic !in before && topic !in after
    ensures Filter(before + [topic] + after, IsNot(topic)) == before + after
  {
    var keep := IsNot(topic);
    var left := Filter(before + [topic], keep);
    assert left == before by {
      FilterAppend(before, [topic], keep);
      FilterDropsTopic(topic);
      FilterAbsent(before, topic);
      assert before + [] == before;
    }
    FilterAppend(before + [topic], after, keep);
    FilterAbsent(after, topic);
  }

  /** The topic alone is filtered away entirely. */
  lemma FilterDropsTopic(topic: string)
    ensures Filter([topic], IsNot(topic)) == []
  {
    assert !IsNot(topic)(topic);
    assert [topic][1..] == [];
  }

  /** Toggling an unselected topic twice gives back the selection. */
  lemma ToggleTwice(selected: seq<string>, topic: string)
    requires topic !in selected
    ensures ToggleTopic(ToggleTopic(selected, topic), topic) == selected
  {
    RemoveKeepsOrder(selected, topic, []);
    assert selected + [topic] + [] == selected + [topic];
    assert selected + [] == selected;
  }

  predicate NoDuplicates(s: seq<string>) {
    forall i, j | 0 <= i < j < |s| :: s[i] != s[j]
  }

  /** A duplicate-free list stays duplicate-free under filtering. */
  lemma {:induction false} FilterNoDuplicates(s: seq<string>, keep: string -> bool)
    requires NoDuplicates(s)
    ensures NoDuplicates(Filter(s, keep))
  {
    if s != [] {
      var tail := s[1..];
      assert NoDuplicates(tail) by {
        forall i, j | 0 <= i < j < |tail| ensures tail[i] != tail[j] {
          assert tail[i] == s[i + 1] && tail[j] == s[j + 1];
        }
      }
      FilterNoDuplicates(tail, keep);
      if keep(s[0]) {
        assert s[0] !in tail by {
          forall k | 0 <= k < |tail| ensures tail[k] != s[0] {
            assert tail[k] == s[k + 1];
          }
        }
        ConsNoDuplicates(s[0], Filter(tail, keep));
      }
    }
  }

  /** Putting a new element in front of a duplicate-free list keeps it duplicate-free. */
  lemma ConsNoDuplicates(x: string, t: seq<string>)
    requires NoDuplicates(t) && x !in t
    ensures NoDuplicates([x] + t)
  {
    var r := [x] + t;
    forall i, j | 0 <= i < j < |r| ensures r[i] != r[j] {
      assert r[j] == t[j - 1];
      if i > 0 {
        assert r[i] == t[i - 1];
      }
    }
  }

  /** Toggling never puts a second copy of a topic into a duplicate-free selection. */
  lemma ToggleKeepsNoDuplicates(selected: seq<string>, topic: string)
    requires NoDuplicates(selected)
    ensures NoDuplicates(ToggleTopic(selected, topic))
  {
    if topic in selected {
      FilterNoDuplicates(selected, IsNot(topic));
    } else {
      var next := selected + [topic];
      forall i, j | 0 <= i < j < |next| ensures next[i] != next[j] {
        if j == |selected| {
          assert next[i] == selected[i] && next[i] in selected;
        } else {
          assert next[i] == selected[i] && next[j] == selected[j];
        }
      }
    }
  }

  const EMPTY_SUMMARY_ALERT: string := "Please enter a conversation summary"

  /** What pressing "Save" does: alert and send nothing, or post a conversation. */
  datatype SaveAction = Refused(alert: string) | Send(payload: ConversationPayload)

  /**
   * `handleSave`: a summary that is blank once trimmed is refused with an
   * alert; otherwise the trimmed summary is sent with the selected topics,
   * for the signed-in member's patient.
   */
  function HandleSave(summary: string, selectedTopics: seq<string>, patientId: string, memberId: string)
    : (action: SaveAction)
    ensures action.Refused? <==> IsBlank(summary, IsJsWhitespace)
    ensures action.Refused? ==> action.alert == EMPTY_SUMMARY_ALERT
    ensures action.Send? ==>
      && action.payload.patientId == patientId
      && action.payload.familyMemberId == memberId
      && action.payload.topics == selectedTopics
      && action.payload.summary == Trim(summary, IsJsWhitespace)
      && action.payload.summary != ""
      && !IsJsWhitespace(action.payload.summary[0])
      && !IsJsWhitespace(action.payload.summary[|action.payload.summary| - 1])
  {
    var trimmed := Trim(summary, IsJsWhitespace);
    TrimEmptyIffBlank(summary, IsJsWhitespace);
    if trimmed == "" then Refused(EMPTY_SUMMARY_ALERT)
    else Send(ConversationPayload(patientId, memberId, trimmed, selectedTopics))
  }
}
