/** The rotating message feed beside the audit form: a cursor over a fixed list
    of five messages that moves one place forward, wrapping around, on every
    tick of a 3500 ms interval timer. Each timer tick is one call of Tick. */
module MessageFeed {

  /** One entry of the feed; the icon is presentation and is not kept. */
  datatype FeedMessage = FeedMessage(text: string, metrics: seq<string>)

  const Messages: seq<FeedMessage> := [
    FeedMessage("Optimize your conversion funnel for a 25% increase in lead generation.",
                ["25% Increase", "Lead Gen"]),
    FeedMessage("Implement personalized customer journeys to boost retention by 40%.",
                ["40% Retention", "Personalization"]),
    FeedMessage("Leverage AI-driven targeting to improve ad spend efficiency by 30%.",
                ["30% Efficiency", "AI Targeting"]),
    FeedMessage("Automate key processes to increase team productivity by 50%.",
                ["50% Productivity", "Automation"]),
    FeedMessage("Expand into new markets to drive a 60% growth in customer base.",
                ["60% Growth", "Market Expansion"])
  ]

  /** The timer callback's update `(prev + 1) % messages.length`. */
  function Next(i: nat): (j: nat)
    ensures j < |Messages|
    ensures i < |Messages| - 1 ==> j == i + 1
    ensures i == |Messages| - 1 ==> j == 0
  {
    (i + 1) % |Messages|
  }

  /** The cursor after `ticks` ticks from the initial index 0. */
  function CursorAfter(ticks: nat): (i: nat)
  {
    if ticks == 0 then 0 else Next(CursorAfter(ticks - 1))
  }

  /** After k ticks the cursor is k mod 5, so it always lies in [0, 5). */
  lemma {:induction false} CursorAfterIsMod(ticks: nat)
    ensures CursorAfter(ticks) == ticks % |Messages|
    ensures CursorAfter(ticks) < |Messages|
  {
    if ticks > 0 {
      CursorAfterIsMod(ticks - 1);
    }
  }

  /** Every five ticks the feed shows the same message again. */
  lemma {:induction false} CursorPeriodic(ticks: nat)
    ensures CursorAfter(ticks + |Messages|) == CursorAfter(ticks)
  {
    CursorAfterIsMod(ticks);
    CursorAfterIsMod(ticks + |Messages|);
  }

  class Feed {
    var currentIndex: nat
    /** The number of timer ticks so far. */
    ghost var ticks: nat

    ghost predicate Valid()
      reads this
    {
      currentIndex == CursorAfter(ticks)
    }

    constructor ()
      ensures Valid() && ticks == 0 && currentIndex == 0
    {
      currentIndex := 0;
      ticks := 0;
    }

    /** The message on display, which lies in the list because the cursor is
        always below its length. */
    function Current(): (m: FeedMessage)
      reads this
      requires Valid()
      ensures m == Messages[ticks % |Messages|]
    {
      CursorAfterIsMod(ticks);
      Messages[currentIndex]
    }

    /** One tick of the interval timer. It does not depend on whether the
        feed is collapsed: the timer keeps running after a submission. */
    method Tick()
      requires Valid()
      modifies this
      ensures Valid()
      ensures ticks == old(ticks) + 1
      ensures currentIndex == Next(old(currentIndex))
      ensures currentIndex == ticks % |Messages|
    {
      currentIndex := (currentIndex + 1) % |Messages|;
      ticks := ticks + 1;
      CursorAfterIsMod(ticks);
    }
  }
}
