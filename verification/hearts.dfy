/**
 The heart counter: `HeartDisplay` holds one icon per remaining heart and `LevelView.removeHearts`
 trims it to the user's health. Icons are numbered in the order they were created.
 */
module Hearts {

  datatype HeartDisplay = HeartDisplay(hearts: seq<int>)

  /** The icons `initializeHearts` adds for `n` hearts: 0, 1, …, n - 1 (none when `n` is not positive). */
  function Icons(n: int): (r: seq<int>)
    ensures |r| == if n > 0 then n else 0
    ensures forall i :: 0 <= i < |r| ==> r[i] == i
    decreases n
  {
    if n <= 0 then [] else Icons(n - 1) + [n - 1]
  }

  /** A display showing `heartsToDisplay` hearts. */
  function NewHeartDisplay(heartsToDisplay: int): (d: HeartDisplay)
    ensures |d.hearts| == if heartsToDisplay > 0 then heartsToDisplay else 0
  {
    HeartDisplay(Icons(heartsToDisplay))
  }

  /** `removeHeart`: drops the first icon, so the others keep their order; an empty display stays empty. */
  function RemoveHeart(d: HeartDisplay): (r: HeartDisplay)
    ensures d.hearts == [] ==> r == d
    ensures d.hearts != [] ==> |r.hearts| == |d.hearts| - 1 && d.hearts == [d.hearts[0]] + r.hearts
  {
    if d.hearts == [] then d else HeartDisplay(d.hearts[1..])
  }

  /** `n` calls of `removeHeart` (none when `n` is not positive). */
  function RemoveHeartTimes(d: HeartDisplay, n: int): (r: HeartDisplay)
    decreases n
  {
    if n <= 0 then d else RemoveHeartTimes(RemoveHeart(d), n - 1)
  }

  /**
   `removeHearts(heartsRemaining)`: the loop bound `currentNumberOfHearts - heartsRemaining` is read
   once, before the first removal.
   */
  function RemoveHearts(d: HeartDisplay, heartsRemaining: int): (r: HeartDisplay)
    ensures var k := if heartsRemaining <= 0 then 0
                     else if heartsRemaining < |d.hearts| then heartsRemaining else |d.hearts|;
            |r.hearts| == k && r.hearts == d.hearts[|d.hearts| - k..]
    ensures heartsRemaining >= |d.hearts| ==> r == d
  {
    RemoveHeartTimesDrops(d, |d.hearts| - heartsRemaining);
    RemoveHeartTimes(d, |d.hearts| - heartsRemaining)
  }

  /** `n` removals leave the last `|hearts| - n` icons, or none. */
  lemma {:induction false} RemoveHeartTimesDrops(d: HeartDisplay, n: int)
    ensures n <= 0 ==> RemoveHeartTimes(d, n) == d
    ensures 0 <= n <= |d.hearts| ==> RemoveHeartTimes(d, n).hearts == d.hearts[n..]
    ensures n >= |d.hearts| ==> RemoveHeartTimes(d, n).hearts == []
    decreases n
  {
    if n > 0 {
      var d1 := RemoveHeart(d);
      RemoveHeartTimesDrops(d1, n - 1);
      assert RemoveHeartTimes(d, n) == RemoveHeartTimes(d1, n - 1);
      if d.hearts == [] {
        assert d1 == d;
      } else if n <= |d.hearts| {
        assert d1.hearts == d.hearts[1..];
        assert d1.hearts[n - 1..] == d.hearts[n..];
      }
    }
  }

  /** The count never grows, and trimming twice to the same health is trimming once. */
  lemma RemoveHeartsIdempotent(d: HeartDisplay, h: int)
    ensures |RemoveHearts(d, h).hearts| <= |d.hearts|
    ensures RemoveHearts(RemoveHearts(d, h), h) == RemoveHearts(d, h)
  {
  }

  /** A level's view starts with one heart per health point of the user and trims to the health. */
  lemma FreshDisplayTracksHealth(health: int, h: int)
    requires 0 <= h <= health
    ensures |RemoveHearts(NewHeartDisplay(health), h).hearts| == h
  {
  }
}
