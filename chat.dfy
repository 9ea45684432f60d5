/**
 * Chat messages: an author, a text, an id and a display time. The clock, the random id part
 * and the formatted time are inputs.
 */
module Chat {
  import opened Wrappers
  import opened Text

  datatype Author = User | Bot

  datatype ChatMessage = ChatMessage(id: string, author: Author, text: string, time: string)

  /** The five conversation topics a user can pick. */
  datatype ChatTopic = IT | Study | Travel | DailyLife | Rest

  function TopicName(t: ChatTopic): string {
    match t
    case IT => "IT"
    case Study => "Study"
    case Travel => "Travel"
    case DailyLife => "Daily life"
    case Rest => "Rest"
  }

  /** An id made of a clock reading and a suffix, joined by a dash. */
  function StampedId(now: nat, suffix: string): string {
    NatToString(now) + "-" + suffix
  }

  /**
   * `formatMessage`: the author and text as given, the supplied id when it is non-empty,
   * otherwise the clock reading `now` and the random part `random`.
   */
  function FormatMessage(author: Author, text: string, id: Option<string>, now: nat, random: string, time: string): (m: ChatMessage)
    ensures m.author == author && m.text == text && m.time == time
    ensures Truthy(id) ==> m.id == id.value
    ensures !Truthy(id) ==> m.id == StampedId(now, random)
  {
    ChatMessage(OrElse(id, StampedId(now, random)), author, text, time)
  }

  /** The id `formatMessages` gives the i-th message: the clock reading of that call and the index. */
  function IndexId(now: nat, i: nat): string {
    StampedId(now, NatToString(i))
  }

  /**
   * `formatMessages`: the i-th message keeps the i-th author and text; its id is built from the
   * clock reading `clock(i)` taken for it and from its index.
   */
  function FormatMessages(messages: seq<(Author, string)>, clock: nat -> nat, time: nat -> string): (r: seq<ChatMessage>)
    ensures |r| == |messages|
    ensures forall i :: 0 <= i < |r| ==> r[i].author == messages[i].0 && r[i].text == messages[i].1
    ensures forall i :: 0 <= i < |r| ==> r[i].id == IndexId(clock(i), i) && r[i].time == time(i)
  {
    seq(|messages|, i requires 0 <= i < |messages| => FormatAt(messages, clock, time, i))
  }

  /** The message `formatMessages` builds at index `i`. */
  function FormatAt(messages: seq<(Author, string)>, clock: nat -> nat, time: nat -> string, i: nat): (m: ChatMessage)
    requires i < |messages|
    ensures m.author == messages[i].0 && m.text == messages[i].1
    ensures m.id == IndexId(clock(i), i) && m.time == time(i)
  {
    var id := IndexId(clock(i), i);
    assert id != "" by {
      assert |id| >= 1;
    }
    FormatMessage(messages[i].0, messages[i].1, Some(id), clock(i), "", time(i))
  }

  /** The position of the first `c` in `u`, or the length of `u` when there is none. */
  function FirstIndexOf(u: string, c: char): nat {
    if |u| == 0 then 0 else if u[0] == c then 0 else 1 + FirstIndexOf(u[1..], c)
  }

  lemma {:induction false} FirstDashAfter(x: string, s: string)
    requires '-' !in x
    ensures FirstIndexOf(x + "-" + s, '-') == |x|
  {
    if |x| > 0 {
      assert (x + "-" + s)[1..] == x[1..] + "-" + s;
      FirstDashAfter(x[1..], s);
    }
  }

  lemma DigitsHaveNoDash(n: nat)
    ensures '-' !in NatToString(n)
  {
  }

  /** A decimal number followed by a dash determines both the number and what follows. */
  lemma StampedIdParts(a: nat, s: string, c: nat, t: string)
    requires StampedId(a, s) == StampedId(c, t)
    ensures a == c && s == t
  {
    var x, y := NatToString(a), NatToString(c);
    var u := StampedId(a, s);
    DigitsHaveNoDash(a);
    DigitsHaveNoDash(c);
    FirstDashAfter(x, s);
    FirstDashAfter(y, t);
    assert u[..|x|] == x && u[..|y|] == y;
    NatToStringInjective(a, c);
    assert u[|x| + 1..] == s && u[|y| + 1..] == t;
  }

  /** The ids of one `formatMessages` call are pairwise distinct, whatever the clock readings. */
  lemma FormattedIdsDistinct(messages: seq<(Author, string)>, clock: nat -> nat, time: nat -> string, i: nat, j: nat)
    requires i < j < |messages|
    ensures FormatMessages(messages, clock, time)[i].id != FormatMessages(messages, clock, time)[j].id
  {
    var r := FormatMessages(messages, clock, time);
    if r[i].id == r[j].id {
      StampedIdParts(clock(i), NatToString(i), clock(j), NatToString(j));
      NatToStringInjective(i, j);
    }
  }
}
