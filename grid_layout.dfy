/**
 * The layout rule of the viewing grid (`decideGridClass` in app.js): the CSS
 * class of the grid depends on the number of slots alone.
 */
module GridLayout {

  /** The five layout classes, from the fewest columns to the most. */
  const LayoutClasses: seq<string> := ["cols-1", "cols-2", "cols-4", "cols-5", "cols-6"]

  /** `decideGridClass(n)` for a slot count `n`. */
  function DecideGridClass(n: nat): (r: string)
    ensures r in LayoutClasses
  {
    if n == 1 then "cols-1"
    else if n == 2 then "cols-2"
    else if n == 3 || n == 4 then "cols-4"
    else if n == 5 || n == 6 then "cols-5"
    else "cols-6"
  }

  /** Position of a layout class in `LayoutClasses`. */
  function Rank(r: string): (k: nat)
    requires r in LayoutClasses
    ensures k < |LayoutClasses| && LayoutClasses[k] == r
  {
    if r == "cols-1" then 0
    else if r == "cols-2" then 1
    else if r == "cols-4" then 2
    else if r == "cols-5" then 3
    else 4
  }

  /**
   * Which counts share a class: exactly 1 gives `cols-1`, exactly 2 gives
   * `cols-2`, 3 and 4 give `cols-4`, 5 and 6 give `cols-5`, and every other
   * count, 0 and 7 to 9 included, gives `cols-6`.
   */
  lemma GridClassByCount(n: nat)
    ensures DecideGridClass(n) == "cols-1" <==> n == 1
    ensures DecideGridClass(n) == "cols-2" <==> n == 2
    ensures DecideGridClass(n) == "cols-4" <==> n == 3 || n == 4
    ensures DecideGridClass(n) == "cols-5" <==> n == 5 || n == 6
    ensures DecideGridClass(n) == "cols-6" <==> n == 0 || n >= 7
  {
  }

  /** Adding slots to a non-empty grid never moves it to a class with fewer columns. */
  lemma GridClassMonotone(m: nat, n: nat)
    requires 1 <= m <= n
    ensures Rank(DecideGridClass(m)) <= Rank(DecideGridClass(n))
  {
  }

  /** The worked example: 1, 2, 3, 5 and 7 slots. */
  lemma GridClassExamples()
    ensures DecideGridClass(1) == "cols-1" && DecideGridClass(2) == "cols-2"
    ensures DecideGridClass(3) == "cols-4" && DecideGridClass(5) == "cols-5"
    ensures DecideGridClass(7) == "cols-6"
  {
  }
}
