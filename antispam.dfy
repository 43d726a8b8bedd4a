/**
 * The client-side anti-spam counter: a log of send times kept to a rolling
 * one-hour window, and the allowance, remaining count, countdown and
 * warning derived from it. Clock readings are passed in as `now`
 * (milliseconds since the epoch).
 */
module AntiSpam {
  import opened Wrappers
  import opened Clock
  import JsMath
  import Trust

  /** The log is in non-decreasing time order. */
  predicate Sorted(log: seq<int>)
  {
    forall i, j :: 0 <= i < j < |log| ==> log[i] <= log[j]
  }

  /** `log.filter(t => t > cutoff)`: the entries strictly younger than `cutoff`. */
  function Retained(log: seq<int>, cutoff: int): (r: seq<int>)
    ensures |r| <= |log|
    ensures forall t :: t in r <==> t in log && t > cutoff
  {
    if log == [] then []
    else if log[0] > cutoff then [log[0]] + Retained(log[1..], cutoff)
    else Retained(log[1..], cutoff)
  }

  /** Filtering is order-preserving: it distributes over concatenation. */
  lemma {:induction false} RetainedAppend(a: seq<int>, b: seq<int>, cutoff: int)
    ensures Retained(a + b, cutoff) == Retained(a, cutoff) + Retained(b, cutoff)
  {
    if a == [] {
      assert a + b == b;
    } else {
      assert (a + b)[1..] == a[1..] + b;
      RetainedAppend(a[1..], b, cutoff);
    }
  }

  /** Filtering keeps the whole log exactly when every entry is young enough. */
  lemma {:induction false} RetainedAll(log: seq<int>, cutoff: int)
    ensures Retained(log, cutoff) == log <==> forall t :: t in log ==> t > cutoff
  {
    if log != [] {
      RetainedAll(log[1..], cutoff);
      assert log == [log[0]] + log[1..];
      assert forall t :: t in log <==> t == log[0] || t in log[1..];
      if log[0] <= cutoff {
        assert log[0] in log;
        assert |Retained(log, cutoff)| < |log|;
      }
    }
  }

  /** Filtering drops the whole log when no entry is young enough. */
  lemma {:induction false} RetainedNone(log: seq<int>, cutoff: int)
    requires forall t :: t in log ==> t <= cutoff
    ensures Retained(log, cutoff) == []
  {
    if log != [] {
      assert log[0] in log;
      assert forall t :: t in log[1..] ==> t in log;
      RetainedNone(log[1..], cutoff);
    }
  }

  /** Pruning twice at the same time is pruning once. */
  lemma RetainedIdempotent(log: seq<int>, cutoff: int)
    ensures Retained(Retained(log, cutoff), cutoff) == Retained(log, cutoff)
  {
    RetainedAll(Retained(log, cutoff), cutoff);
  }

  /** On a sorted log, pruning drops a prefix and keeps the order. */
  lemma {:induction false} RetainedSortedSuffix(log: seq<int>, cutoff: int)
    requires Sorted(log)
    ensures exists k :: 0 <= k <= |log| && Retained(log, cutoff) == log[k..]
    ensures Sorted(Retained(log, cutoff))
  {
    if log == [] {
      assert Retained(log, cutoff) == log[0..];
    } else if log[0] > cutoff {
      assert forall t :: t in log ==> t > cutoff by {
        forall t | t in log ensures t > cutoff {
          var i :| 0 <= i < |log| && log[i] == t;
          assert log[0] <= log[i];
        }
      }
      RetainedAll(log, cutoff);
      assert Retained(log, cutoff) == log[0..];
    } else {
      assert Sorted(log[1..]) by {
        forall i, j | 0 <= i < j < |log[1..]| ensures log[1..][i] <= log[1..][j] {
          assert log[1..][i] == log[i + 1] && log[1..][j] == log[j + 1];
        }
      }
      RetainedSortedSuffix(log[1..], cutoff);
      var k :| 0 <= k <= |log[1..]| && Retained(log[1..], cutoff) == log[1..][k..];
      assert log[1..][k..] == log[k + 1..];
    }
  }

  /**
   * Recording `now` on a sorted log whose entries are not later than `now`
   * keeps it sorted, and its first entry is then its oldest.
   */
  lemma RecordKeepsSorted(log: seq<int>, now: int)
    requires Sorted(log)
    requires forall t :: t in log ==> t <= now
    ensures var r := Retained(log, now - HourMs) + [now];
      && Sorted(r)
      && forall t :: t in r ==> r[0] <= t
  {
    var kept := Retained(log, now - HourMs);
    RetainedSortedSuffix(log, now - HourMs);
    var r := kept + [now];
    forall i, j | 0 <= i < j < |r| ensures r[i] <= r[j] {
      if j < |kept| {
        assert r[i] == kept[i] && r[j] == kept[j];
      } else {
        assert r[i] == kept[i] && kept[i] in kept;
      }
    }
  }

  /**
   * A burst of sends between `first` and `last` stays fully counted until
   * an hour after `first`, and is fully forgotten from an hour after `last`
   * on (a burst within one minute is back after at most 61 minutes).
   */
  lemma BurstWindow(log: seq<int>, first: int, last: int, now: int)
    requires forall t :: t in log ==> first <= t <= last
    ensures now < first + HourMs ==> Retained(log, now - HourMs) == log
    ensures now >= last + HourMs ==> Retained(log, now - HourMs) == []
  {
    RetainedAll(log, now - HourMs);
    if now >= last + HourMs {
      RetainedNone(log, now - HourMs);
    }
  }

  /** `profile?.ring ?? RingLevel.Guest`, looked up in the allowance table. */
  function Limit(ring: Option<Trust.RingLevel>): (n: nat)
    ensures ring.Some? ==> n == Trust.RingLimits(ring.value).messagesPerHour
    ensures ring.None? ==> n == 10
    ensures n >= 10
  {
    Trust.RingLimits(ring.GetOr(Trust.Guest)).messagesPerHour
  }

  /** `Math.max(0, limit - messagesSent)`. */
  function MessagesRemaining(limit: nat, sent: nat): (n: nat)
    ensures n <= limit
    ensures sent < limit ==> n + sent == limit
    ensures sent >= limit ==> n == 0
  {
    JsMath.Max(0, limit - sent)
  }

  /** `messagesSent < limit`: sending is allowed exactly when at least one message remains. */
  predicate CanSend(limit: nat, sent: nat): (b: bool)
    ensures b <==> MessagesRemaining(limit, sent) >= 1
  {
    sent < limit
  }

  /** `getMinutesUntilReset`: whole minutes, rounded up, until `resetTime`; never negative. */
  function MinutesUntilReset(resetTime: Option<int>, now: int): (r: Option<nat>)
    ensures r.None? <==> resetTime.None?
    ensures r.Some? && resetTime.value <= now ==> r.value == 0
    ensures r.Some? && resetTime.value > now ==>
      MinuteMs * (r.value - 1) < resetTime.value - now <= MinuteMs * r.value
  {
    match resetTime
    case None => None
    case Some(t) =>
      var m := JsMath.CeilDiv(t - now, MinuteMs);
      Some(JsMath.Max(0, m))
  }

  /** A reset at most an hour away is announced as 1 to 60 minutes. */
  lemma CountdownWithinHour(resetTime: int, now: int)
    requires now < resetTime <= now + HourMs
    ensures var r := MinutesUntilReset(Some(resetTime), now); r.Some? && 1 <= r.value <= 60
  {
  }

  /** The warning shown to the user; its wording is left to translation. */
  datatype Warning =
    | LimitReached(minutesLeft: nat)
    | FewRemaining(remaining: nat, resetInMinutes: Option<nat>)

  /** The `warningMessage` selection. */
  function WarningMessage(limit: nat, sent: nat, minutes: Option<nat>): (w: Option<Warning>)
    ensures w.Some? <==> !CanSend(limit, sent) || MessagesRemaining(limit, sent) <= 5
    ensures !CanSend(limit, sent) ==> w == Some(LimitReached(minutes.GetOr(0)))
    ensures CanSend(limit, sent) && w.Some? ==>
      w == Some(FewRemaining(MessagesRemaining(limit, sent), minutes))
      && 1 <= w.value.remaining <= 5
  {
    if !CanSend(limit, sent) then Some(LimitReached(minutes.GetOr(0)))
    else if MessagesRemaining(limit, sent) <= 5 then
      Some(FewRemaining(MessagesRemaining(limit, sent), minutes))
    else None
  }

  /** The per-session state of the hook: the send log and the two React state values. */
  class SpamGuard {
    var sentMessages: seq<int>
    var messagesSent: nat
    var resetTime: Option<int>

    constructor ()
      ensures sentMessages == [] && messagesSent == 0 && resetTime == None
    {
      sentMessages := [];
      messagesSent := 0;
      resetTime := None;
    }

    /** `pruneOldMessages`: drop every entry at least one hour old. */
    method Prune(now: int)
      modifies this
      ensures sentMessages == Retained(old(sentMessages), now - HourMs)
      ensures forall t :: t in sentMessages ==> t > now - HourMs
      ensures messagesSent == old(messagesSent) && resetTime == old(resetTime)
    {
      sentMessages := Retained(sentMessages, now - HourMs);
    }

    /** The ten-second interval: prune, then refresh the count; the reset time is not touched. */
    method Tick(now: int)
      modifies this
      ensures sentMessages == Retained(old(sentMessages), now - HourMs)
      ensures messagesSent == |sentMessages|
      ensures resetTime == old(resetTime)
    {
      Prune(now);
      messagesSent := |sentMessages|;
    }

    /**
     * `recordMessage`: prune, append `now`, refresh the count and set the
     * reset time from the first retained entry. It does not consult `CanSend`.
     */
    method RecordMessage(now: int)
      modifies this
      ensures sentMessages == Retained(old(sentMessages), now - HourMs) + [now]
      ensures messagesSent == |Retained(old(sentMessages), now - HourMs)| + 1
      ensures messagesSent == |sentMessages|
      ensures resetTime == Some(sentMessages[0] + HourMs)
      ensures Sorted(old(sentMessages)) && (forall t :: t in old(sentMessages) ==> t <= now) ==>
        Sorted(sentMessages) && forall t :: t in sentMessages ==> resetTime.value <= t + HourMs
    {
      ghost var before := sentMessages;
      Prune(now);
      sentMessages := sentMessages + [now];
      messagesSent := |sentMessages|;
      resetTime := Some(sentMessages[0] + HourMs);
      if Sorted(before) && (forall t :: t in before ==> t <= now) {
        RecordKeepsSorted(before, now);
      }
    }
  }
}
