/** The live alert list of the notifications panel: each inserted
    notification is put in front of the list by the state updater
    `prev => [payload.new, ...prev]`. */
module Alerts {

  /** The updater applied to the current list for one incoming alert. */
  function Prepend<T>(prev: seq<T>, incoming: T): (next: seq<T>)
    ensures |next| == |prev| + 1
    ensures next[0] == incoming
    ensures forall i :: 0 <= i < |prev| ==> next[i + 1] == prev[i]
  {
    [incoming] + prev
  }

  /** The list after alerts arrive one by one, in the order given. */
  function Receive<T>(prev: seq<T>, arrivals: seq<T>): seq<T>
    decreases |arrivals|
  {
    if arrivals == [] then prev else Receive(Prepend(prev, arrivals[0]), arrivals[1..])
  }

  function Reverse<T>(s: seq<T>): (r: seq<T>)
    ensures |r| == |s|
    ensures forall i :: 0 <= i < |s| ==> r[i] == s[|s| - 1 - i]
    decreases |s|
  {
    if s == [] then [] else Reverse(s[1..]) + [s[0]]
  }

  /** The panel lists the alerts newest first, ahead of those it already had,
      which keep their order. */
  lemma {:induction false} ReceiveNewestFirst<T>(prev: seq<T>, arrivals: seq<T>)
    ensures Receive(prev, arrivals) == Reverse(arrivals) + prev
    decreases |arrivals|
  {
    if arrivals != [] {
      var first, rest := arrivals[0], arrivals[1..];
      ReceiveNewestFirst([first] + prev, rest);
      calc {
        Receive(prev, arrivals);
        Receive([first] + prev, rest);
        Reverse(rest) + ([first] + prev);
        { assert Reverse(rest) + ([first] + prev) == (Reverse(rest) + [first]) + prev; }
        (Reverse(rest) + [first]) + prev;
        Reverse(arrivals) + prev;
      }
    }
  }

  /** Of two alerts, the later arrival is shown above the earlier one, and
      nothing is lost: the list grows by the number of arrivals. */
  lemma LaterAlertShownFirst<T>(prev: seq<T>, arrivals: seq<T>, i: nat, j: nat)
    requires i < j < |arrivals|
    ensures var shown := Receive(prev, arrivals);
      && |shown| == |prev| + |arrivals|
      && shown[|arrivals| - 1 - j] == arrivals[j]
      && shown[|arrivals| - 1 - i] == arrivals[i]
      && shown[|arrivals|..] == prev
  {
    ReceiveNewestFirst(prev, arrivals);
  }
}
