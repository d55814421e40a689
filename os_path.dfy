/** The part of Python's `posixpath` the crawler relies on. */
module OsPath {

  /** `os.path.join(a, b)` on POSIX: an absolute `b` replaces `a`; otherwise
      `b` is appended, with one '/' inserted unless `a` is empty or already
      ends with '/'. */
  function Join(a: string, b: string): (path: string)
    // an absolute second part wins outright
    ensures |b| > 0 && b[0] == '/' ==> path == b
    // otherwise the result reads: a, at most one inserted separator, b
    ensures !(|b| > 0 && b[0] == '/') ==>
              |path| >= |a| + |b| && path[..|a|] == a && path[|path| - |b|..] == b &&
              |path| - |a| - |b| == (if a == [] || a[|a| - 1] == '/' then 0 else 1)
    ensures !(|b| > 0 && b[0] == '/') && a != [] && a[|a| - 1] != '/' ==> path[|a|] == '/'
  {
    if |b| > 0 && b[0] == '/' then b
    else if a == [] || a[|a| - 1] == '/' then a + b
    else a + "/" + b
  }
}
