/** The path and width helpers of `lineman.c`'s report: the directory of a
    path, the relative path shown for a file, the path column and its width. */
module Layout {
  import opened Optional
  import opened Text

  /** `MAX_PATH_LEN`: path buffers hold at most `MaxPathLen - 1` characters. */
  const MaxPathLen: nat := 4096

  /** `MIN_PATH_COLUMN_WIDTH` and `MAX_PATH_COLUMN_WIDTH`. */
  const MinPathColumnWidth: int := 20
  const MaxPathColumnWidth: int := 80

  /** The width of the three `e-`, `cs-`, `co-` count columns. */
  const StatsWidth: int := 2 + 4 + 6 + 2 + 5 + 6 + 2 + 4 + 6

  /** The width used when the terminal does not report one. */
  const DefaultTerminalWidth: int := 100

  /** `get_dirname`: the part of the (buffer-truncated) path before its last
      '/', or "." when it has none. */
  function DirName(path: string): (dir: string)
    ensures var t := Truncate(path, MaxPathLen - 1);
      ('/' !in t ==> dir == ".") &&
      ('/' in t ==> |dir| < |t| && t[..|dir|] == dir && t[|dir|] == '/' &&
                    forall k :: |dir| < k < |t| ==> t[k] != '/')
  {
    var t := Truncate(path, MaxPathLen - 1);
    match LastIndexOf(t, '/')
    case None => "."
    case Some(slash) => t[..slash]
  }

  /** `get_terminal_width`: the column count the terminal reports, when the
      query succeeded with a positive value, else `DefaultTerminalWidth`. */
  function TerminalWidth(reported: Option<int>): (w: int)
    ensures w > 0
    ensures reported.Some? && reported.value > 0 ==> w == reported.value
    ensures !(reported.Some? && reported.value > 0) ==> w == DefaultTerminalWidth
  {
    if reported.Some? && reported.value > 0 then reported.value else DefaultTerminalWidth
  }

  /** `compute_path_column_width`: what is left of the terminal after the
      count columns, clamped to the minimum and maximum column width. */
  function PathColumnWidth(termWidth: int): (w: int)
    ensures MinPathColumnWidth <= w <= MaxPathColumnWidth
    ensures MinPathColumnWidth <= termWidth - StatsWidth <= MaxPathColumnWidth ==> w == termWidth - StatsWidth
  {
    var available := termWidth - StatsWidth;
    if available < MinPathColumnWidth then MinPathColumnWidth
    else if available > MaxPathColumnWidth then MaxPathColumnWidth
    else available
  }

  function Distance(a: int, b: int): nat {
    if a < b then b - a else a - b
  }

  /** The clamped width is the admissible width nearest to the space the count columns leave. */
  lemma PathColumnWidthIsNearest(termWidth: int, v: int)
    requires MinPathColumnWidth <= v <= MaxPathColumnWidth
    ensures Distance(PathColumnWidth(termWidth), termWidth - StatsWidth) <= Distance(v, termWidth - StatsWidth)
  {
  }

  function Spaces(n: nat): (s: string)
    ensures |s| == n && forall k :: 0 <= k < n ==> s[k] == ' '
  {
    seq(n, _ => ' ')
  }

  /** `print_path_column`, as the text it prints: a path that fits is padded
      with spaces to the column width; a longer one keeps its last
      `width - 3` characters behind "...". */
  function PathColumn(path: string, width: int): (col: string)
    requires width >= 3
    ensures |col| == width
    ensures |path| <= width ==> col[..|path|] == path && forall k :: |path| <= k < width ==> col[k] == ' '
    ensures |path| > width ==> col[..3] == "..." && path == path[..|path| - (width - 3)] + col[3..]
  {
    if |path| <= width then path + Spaces(width - |path|)
    else "..." + path[|path| - (width - 3)..]
  }

  /** The trailing-slash trim in `main`: one '/' is dropped from the end of
      the argument, unless the argument is just "/". */
  function TrimmedBaseLength(base: string): (n: nat)
    ensures n <= |base|
    ensures n == |base| - 1 <==> |base| > 1 && base[|base| - 1] == '/'
    ensures n != |base| - 1 ==> n == |base|
  {
    if |base| > 1 && base[|base| - 1] == '/' then |base| - 1 else |base|
  }

  /** The path as it is shown: when its first `baseLen` characters are those
      of the argument, they are removed, together with one '/' right after
      them; otherwise the path is shown whole. */
  function StripBase(path: string, base: string, baseLen: nat): (out: string)
    requires baseLen <= |base|
    ensures |out| <= |path| && out == path[|path| - |out|..]
    ensures !(baseLen <= |path| && path[..baseLen] == base[..baseLen]) ==> out == path
    ensures baseLen <= |path| && path[..baseLen] == base[..baseLen] ==>
      path[baseLen..] == out || path[baseLen..] == "/" + out
    ensures baseLen < |path| && path[..baseLen] == base[..baseLen] && path[baseLen] == '/' ==>
      path[baseLen..] == "/" + out
  {
    if baseLen <= |path| && path[..baseLen] == base[..baseLen] then
      var rest := path[baseLen..];
      if |rest| > 0 && rest[0] == '/' then rest[1..] else rest
    else path
  }

  /** For a path the traversal builds as argument + "/" + name: the shown
      path is the name, except when the argument ends in '/' (and is not
      "/"), where one '/' remains in front of it. */
  lemma StripJoinedPath(base: string, name: string)
    requires |base| > 0
    ensures var out := StripBase(base + "/" + name, base, TrimmedBaseLength(base));
      if |base| > 1 && base[|base| - 1] == '/' then out == "/" + name else out == name
  {
    var path := base + "/" + name;
    var n := TrimmedBaseLength(base);
    assert path[..n] == base[..n];
    if |base| > 1 && base[|base| - 1] == '/' {
      assert path[n..] == "//" + name;
    } else {
      assert path[n..] == "/" + name;
    }
  }

  /** A file given directly as the argument is shown with an empty path. */
  lemma StripArgumentItself(base: string)
    requires |base| > 0 && base[|base| - 1] != '/'
    ensures StripBase(base, base, TrimmedBaseLength(base)) == ""
  {
  }
}
