/** The start position of the full-screen viewer. */
module ImageViewer {
  import opened JavaText

  /** onCreate: a missing position extra reads as 0, a missing list as empty, and the pager starts
      at Math.max(0, Math.min(pos, items.size() - 1)). */
  function StartPosition(listExtra: Option<seq<string>>, posExtra: Option<int32>): (index: int)
    ensures index >= 0
    ensures var n := if listExtra.Some? then |listExtra.value| else 0;
      var pos := if posExtra.Some? then posExtra.value as int else 0;
      && (n > 0 ==> index <= n - 1)
      && (n == 0 ==> index == 0)
      && (0 <= pos < n ==> index == pos)
      && (pos < 0 ==> index == 0)
      && (n > 0 && pos >= n ==> index == n - 1)
  {
    var items := if listExtra.None? then [] else listExtra.value;
    var pos := if posExtra.None? then 0 else posExtra.value as int;
    Max(0, Min(pos, |items| - 1))
  }

  function Max(a: int, b: int): int { if a >= b then a else b }

  function Min(a: int, b: int): int { if a <= b then a else b }
}
