/** `target_scan`, the editor's reader of the configuration file, over lines that are
    already classified (`Syntax.ClassifyAll` reads each raw line once for both
    grammars; the loop picks the reading its own block flag calls for). */
module TargetScanner {
  import opened Base
  import opened Lines
  import S = Scanner

  method TargetScan(cs: seq<Line>, pkg: string) returns (t: S.Target)
    ensures t == S.Scan(cs, pkg)
  {
    var pkgLine: Option<S.PkgLine> := None;
    var blockOpen: Option<nat>, blockClose: Option<nat> := None, None;
    var hits: seq<S.Hit> := [];
    var pending: Option<nat> := None;
    var inBlock, targetBlock := false, false;
    for i := 0 to |cs|
      invariant inBlock == S.StateAt(cs, i).inBlock && pending == S.StateAt(cs, i).pend
      invariant targetBlock == S.InTarget(cs, pkg, i)
      invariant pkgLine == S.HeaderTo(cs, pkg, i) && hits == S.HitsTo(cs, pkg, i)
      invariant blockOpen == S.OpenTo(cs, pkg, i) && blockClose == S.CloseTo(cs, pkg, i)
    {
      S.PendingRun(cs, i);
      if cs[i].Skip? {
        continue;
      }
      if inBlock {
        var closes := false;
        match cs[i].inner {
          case Close =>
            closes := true;
          case Entry(name, _, closed) =>
            if targetBlock && name != "" {
              hits := hits + [S.Hit(name, S.ThreadLoc(i, false, closed, false))];
            }
            closes := closed;
          case Bad(hasBrace) =>
            closes := hasBrace;
        }
        if closes {
          inBlock := false;
          if targetBlock && blockClose.None? {
            blockClose := Some(i);
          }
          targetBlock := false;
        }
        continue;
      }
      var opener: Option<string> := None;
      var header: Option<S.PkgLine> := None;
      match cs[i].outer {
        case Single(pg, th, _, open) =>
          pending := None;
          if pg == pkg && th != "" {
            hits := hits + [S.Hit(th, S.ThreadLoc(i, true, false, open))];
          }
          if open {
            opener := Some(pg);
          }
        case Rule(pg, _, open) =>
          pending := None;
          if open {
            opener := Some(pg);
          }
          if pg == pkg {
            header := Some(if open then S.OpenInline(i) else S.Standalone(i));
          }
        case BareOpen(owner) =>
          if owner != "" {
            pending := None;
            opener := Some(owner);
            if owner == pkg {
              header := Some(S.OpenBare(i));
            }
          } else if pending.Some? {
            var pi := pending.value;
            pending := None;
            opener := Some(cs[pi].outer.pkg);
            if cs[pi].outer.pkg == pkg {
              header := Some(S.BarePending(pi));
            }
          }
        case Pending(_) =>
          pending := Some(i);
        case Junk =>
          pending := None;
      }
      if opener.Some? {
        inBlock := true;
        if opener.value == pkg {
          targetBlock := true;
          if blockClose.None? {
            blockOpen := Some(i);
          }
        }
      }
      if pkgLine.None? {
        pkgLine := header;
      }
    }
    t := S.Target(pkgLine, blockOpen, blockClose, hits, inBlock);
  }
}
