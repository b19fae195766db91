/** The walk down a path that resolves symbolic links: each call returns the next directory. */
module PathWalk {
  import opened Options

  /** What reading a symbolic link gives: nothing, if the path is not one. */
  type Links = string -> Option<string>

  /** A link leads somewhere. */
  ghost predicate LinksOk(links: Links) {
    forall p :: links(p).Some? ==> links(p).value != ""
  }

  // ----- the resolution, by components

  /** A component: the slashes before it, and its name. */
  datatype Comp = Comp(slashes: string, name: string)

  function Slashes(s: string): (k: nat)
    ensures k <= |s| && forall i :: 0 <= i < k ==> s[i] == '/'
    ensures k < |s| ==> s[k] != '/'
  {
    if s == "" || s[0] != '/' then 0 else 1 + Slashes(s[1..])
  }

  function NameLength(s: string): (k: nat)
    ensures k <= |s| && forall i :: 0 <= i < k ==> s[i] != '/'
    ensures k < |s| ==> s[k] == '/'
  {
    if s == "" || s[0] == '/' then 0 else 1 + NameLength(s[1..])
  }

  /** The first component of a text, and where it ends. */
  function First(s: string): Comp {
    var k := Slashes(s);
    Comp(s[..k], s[k..k + NameLength(s[k..])])
  }

  function FirstEnd(s: string): (k: nat)
    ensures k <= |s| && s[..k] == First(s).slashes + First(s).name
    ensures k < |s| ==> s[k] == '/' && 0 < k
  {
    Slashes(s) + NameLength(s[Slashes(s)..])
  }

  /** The first component of the rest of a text. */
  lemma FirstIn(path: string, start: nat)
    requires start <= |path|
    ensures var s := path[start..];
      var last := start + Slashes(s);
      && last <= |path|
      && var end := last + NameLength(path[last..]);
      && end <= |path| && FirstEnd(s) == end - start && path[end..] == s[end - start..]
      && First(s).slashes == path[start..last] && First(s).name == path[last..end]
  {
    hide Slashes, NameLength;
    var s := path[start..];
    var last := start + Slashes(s);
    assert s[last - start..] == path[last..];
  }

  /** A text is at least one component, which may be empty. */
  function Split(s: string): (comps: seq<Comp>)
    ensures comps != []
    decreases |s|
  {
    [First(s)] + if FirstEnd(s) < |s| then Split(s[FirstEnd(s)..]) else []
  }

  function Join(comps: seq<Comp>): string {
    if comps == [] then "" else comps[0].slashes + comps[0].name + Join(comps[1..])
  }

  lemma {:induction false} JoinSplit(s: string)
    ensures Join(Split(s)) == s
    decreases |s|
  {
    hide First, FirstEnd, Slashes, NameLength;
    var k := FirstEnd(s);
    if k < |s| {
      JoinSplit(s[k..]);
      assert Split(s)[1..] == Split(s[k..]);
      assert s == s[..k] + s[k..];
    } else {
      assert Split(s)[1..] == [];
    }
  }

  datatype Walk = Walk(paths: seq<string>, complete: bool)

  /** The directories on the way down from `done` through the components: a symbolic link is replaced
      by what it leads to, from the root or from where it stands, at most `left` times. */
  function Resolve(links: Links, done: string, comps: seq<Comp>, left: nat): Walk
    decreases left, |comps|
  {
    if comps == [] then Walk([], true)
    else
      var here := done + comps[0].slashes;
      var p := here + comps[0].name;
      match links(p)
      case None =>
        var w := Resolve(links, p, comps[1..], left);
        Walk([p] + w.paths, w.complete)
      case Some(target) =>
        if left == 0 then Walk([], false)
        else
          var from := if target != "" && target[0] == '/' then "" else here;
          Resolve(links, from, Split(target + Join(comps[1..])), left - 1)
  }

  // ----- the walk itself

  datatype Step = Next(path: string) | Done | TooManyLinks

  class Walker {
    const links: Links
    const maxSymlinks: nat
    var path: string               // the text being walked
    var lastComp: Option<nat>      // where the next component begins in it
    var pathtocheck: string        // the directory reached
    var symlinkcount: nat

    constructor (links: Links, maxSymlinks: nat)
      ensures this.links == links && this.maxSymlinks == maxSymlinks && lastComp == None
    {
      this.links, this.maxSymlinks := links, maxSymlinks;
      path, lastComp, pathtocheck, symlinkcount := "", None, "", 0;
    }

    ghost predicate Valid()
      reads this
    {
      && LinksOk(links) && symlinkcount <= maxSymlinks && (lastComp.Some? ==> lastComp.value <= |path|)
      && Joins(pathtocheck, Rest())
    }

    /** What is still to be walked. */
    ghost function Rest(): Option<string>
      requires lastComp.Some? ==> lastComp.value <= |path|
      reads this
    {
      if lastComp.None? then None else Some(path[lastComp.value..])
    }

    /** The walk that is still to come. */
    ghost function ToCome(): Walk
      requires lastComp.Some? ==> lastComp.value <= |path|
      requires symlinkcount <= maxSymlinks
      reads this
    {
      if lastComp.None? then Walk([], true)
      else Resolve(links, pathtocheck, Split(path[lastComp.value..]), maxSymlinks - symlinkcount)
    }

    /** The length of what is still to be walked. */
    ghost function Left(): nat
      requires Valid()
      reads this
    {
      if lastComp.None? then 0 else 1 + |path| - lastComp.value
    }

    /** Begins a walk. */
    method Start(origpath: string)
      requires LinksOk(links)
      modifies this
      ensures Valid() && ToCome() == Resolve(links, "", Split(origpath), maxSymlinks)
    {
      hide Resolve, Split;
      path, pathtocheck := origpath, "";
      lastComp := Some(0);
      symlinkcount := 0;
      assert path[0..] == origpath;
    }

    /** Appends the slashes before the next name to the directory reached. */
    method SkipSlashes() returns (last: nat)
      requires lastComp.Some? && lastComp.value <= |path|
      modifies this`pathtocheck
      ensures last == lastComp.value + Slashes(path[lastComp.value..])
      ensures pathtocheck == old(pathtocheck) + path[lastComp.value..last]
    {
      var start := lastComp.value;
      ghost var s := path[start..];
      last := start;
      while last < |path| && path[last] == '/'
        invariant start <= last <= |path| && last - start <= Slashes(s)
        invariant pathtocheck == old(pathtocheck) + path[start..last]
      {
        assert s[last - start] == path[last];
        assert path[start..last] + [path[last]] == path[start..last + 1];
        pathtocheck := pathtocheck + [path[last]];
        last := last + 1;
      }
      assert last - start < |s| ==> s[last - start] == path[last];
    }

    /** Appends the next component to the directory reached: its slashes, then its name. */
    method NextComponent() returns (last: nat, elast: Option<nat>)
      requires lastComp.Some? && lastComp.value <= |path|
      modifies this`pathtocheck
      ensures var s := path[lastComp.value..];
        && last <= |path| && pathtocheck == old(pathtocheck) + First(s).slashes + First(s).name
        && (elast.Some? ==> elast.value <= |path|)
        && (if elast.None? then FirstEnd(s) == |s| else FirstEnd(s) < |s| && path[elast.value..] == s[FirstEnd(s)..])
    {
      hide Slashes, NameLength, First, FirstEnd;
      FirstIn(path, lastComp.value);
      last := SkipSlashes();
      var end := EndOfName(last);
      elast := if end < |path| then Some(end) else None;
      pathtocheck := pathtocheck + path[last..end];
    }

    method EndOfName(last: nat) returns (end: nat)
      requires last <= |path|
      ensures end == last + NameLength(path[last..])
    {
      ghost var s := path[last..];
      end := last;
      while end < |path| && path[end] != '/'
        invariant last <= end <= |path| && end - last <= NameLength(s)
      {
        assert s[end - last] == path[end];
        end := end + 1;
      }
      assert end - last < |s| ==> s[end - last] == path[end];
    }

    /** Drops what follows the last slash. */
    method DropName(ghost here: string, ghost name: string)
      requires pathtocheck == here + name && '/' !in name && (here == "" || here[|here| - 1] == '/')
      modifies this`pathtocheck
      ensures pathtocheck == here
    {
      assert forall k :: |here| <= k < |pathtocheck| ==> pathtocheck[k] == name[k - |here|];
      assert here != "" ==> pathtocheck[|here| - 1] == '/';
      var t := |pathtocheck|;
      while t > 0 && pathtocheck[t - 1] != '/'
        invariant |here| <= t <= |here| + |name|
      {
        t := t - 1;
      }
      pathtocheck := pathtocheck[..t];
    }

    /** Replaces the last component, or everything so far, by what a link leads to. */
    method FollowLink(last: nat, elast: Option<nat>, linkbuf: string, ghost here: string, ghost name: string)
      requires last <= |path| && linkbuf != "" && symlinkcount < maxSymlinks && LinksOk(links)
      requires elast.Some? ==> elast.value <= |path|
      requires pathtocheck == here + name && '/' !in name && (here == "" || here[|here| - 1] == '/')
      modifies this`path, this`lastComp, this`pathtocheck, this`symlinkcount
      ensures symlinkcount == old(symlinkcount) + 1 && Valid() && lastComp.Some?
      ensures path[lastComp.value..] == linkbuf + if elast.None? then "" else old(path)[elast.value..]
      ensures pathtocheck == if linkbuf[0] == '/' then "" else here
    {
      symlinkcount := symlinkcount + 1;
      var tmpbuf := if elast.None? then "" else path[elast.value..];
      if linkbuf[0] == '/' {
        path := linkbuf + tmpbuf;
        lastComp := Some(0);
        pathtocheck := "";
      } else {
        path := path[..last] + linkbuf + tmpbuf;
        lastComp := Some(last);
        DropName(here, name);
        assert path[last..] == linkbuf + tmpbuf;
      }
    }

    /** Takes the next component: a directory, or a link that is followed. */
    method TakeComponent() returns (r: Option<Step>)
      requires Valid() && lastComp.Some?
      modifies this`path, this`lastComp, this`pathtocheck, this`symlinkcount
      ensures r.None? ==>
        Valid() && lastComp.Some? && symlinkcount == old(symlinkcount) + 1 && ToCome() == old(ToCome())
      ensures r.Some? ==> !r.value.Done? && (r.value.TooManyLinks? ==> old(ToCome()) == Walk([], false))
      ensures r.Some? && r.value.Next? ==>
        Valid() && links(r.value.path).None? && symlinkcount == old(symlinkcount) && Left() < old(Left())
      ensures r.Some? && r.value.Next? ==> old(ToCome()) == Walk([r.value.path] + ToCome().paths, ToCome().complete)
    {
      hide Resolve, Split, First, FirstEnd, Slashes, NameLength, Join, Onward, Joins;
      ghost var done, s := pathtocheck, path[lastComp.value..];
      ghost var here, name, more := ResolveFirst(links, done, s, maxSymlinks - symlinkcount);
      HereEnds(done, s);
      var last, elast := NextComponent();
      r := Check(last, elast, done, s, here, name, more);
    }

    /** Looks whether the component is a link. */
    method Check(last: nat, elast: Option<nat>, ghost done: string, ghost s: string, ghost here: string,
                 ghost name: string, ghost more: Option<string>)
      returns (r: Option<Step>)
      requires LinksOk(links) && symlinkcount <= maxSymlinks && last <= |path|
      requires (elast.Some? ==> elast.value <= |path|)
      requires pathtocheck == here + name && '/' !in name && (here == "" || here[|here| - 1] == '/')
      requires if elast.None? then more == None
               else more == Some(path[elast.value..]) && more.value != "" && more.value[0] == '/'
      modifies this`path, this`lastComp, this`pathtocheck, this`symlinkcount
      ensures r.None? ==> Valid() && lastComp.Some? && symlinkcount == old(symlinkcount) + 1
      ensures r.None? ==>
        links(here + name).Some? && ToCome() == Followed(links, here, name, more, maxSymlinks - old(symlinkcount))
      ensures r.Some? ==> r.value == if links(here + name).None? then Next(here + name) else TooManyLinks
      ensures r.Some? && r.value.Next? ==>
        Valid() && symlinkcount == old(symlinkcount) && lastComp == elast && path == old(path)
      ensures r.Some? && r.value.Next? ==> ToCome() == Onward(links, here, name, more, maxSymlinks - symlinkcount)
      ensures r.Some? && r.value.TooManyLinks? ==> old(symlinkcount) == maxSymlinks
    {
      hide Resolve, Split;
      var linkbuf := links(pathtocheck);
      if linkbuf.None? {
        lastComp := elast;
        return Some(Next(pathtocheck));
      }
      if symlinkcount == maxSymlinks {
        return Some(TooManyLinks);
      }
      FollowLink(last, elast, linkbuf.value, here, name);
      r := None;
    }

    /** The next directory down the path; no link is left in it. */
    method NextPath() returns (r: Step)
      requires Valid()
      modifies this`path, this`lastComp, this`pathtocheck, this`symlinkcount
      ensures r.Done? <==> old(ToCome()) == Walk([], true)
      ensures r.Done? ==> Valid() && ToCome() == Walk([], true)
      ensures r.TooManyLinks? <==> old(ToCome()) == Walk([], false)
      ensures r.Next? ==>
        Valid() && links(r.path).None? && old(ToCome()) == Walk([r.path] + ToCome().paths, ToCome().complete)
      ensures r.Next? ==>
        symlinkcount > old(symlinkcount) || (symlinkcount == old(symlinkcount) && Left() < old(Left()))
    {
      if lastComp == None {
        return Done;
      }
      while true
        invariant Valid() && lastComp.Some? && ToCome() == old(ToCome()) && symlinkcount >= old(symlinkcount)
        invariant symlinkcount == old(symlinkcount) ==> Left() == old(Left())
        decreases maxSymlinks - symlinkcount
      {
        var found := TakeComponent();
        if found.Some? {
          return found.value;
        }
      }
    }
  }

  /** The walk after a directory, and the walk after a link. */
  ghost function Onward(links: Links, here: string, name: string, more: Option<string>, left: nat): Walk {
    if more.None? then Walk([], true) else Resolve(links, here + name, Split(more.value), left)
  }

  ghost function Followed(links: Links, here: string, name: string, more: Option<string>, left: nat): Walk {
    var target := links(here + name);
    if left == 0 || target.None? then Walk([], false)
    else
      var from := if target.value != "" && target.value[0] == '/' then "" else here;
      Resolve(links, from, Split(target.value + if more.None? then "" else more.value), left - 1)
  }

  /** The resolution of a text, one component at a time. */
  lemma ResolveFirst(links: Links, done: string, s: string, left: nat)
    returns (here: string, name: string, more: Option<string>)
    ensures here == done + First(s).slashes && name == First(s).name
    ensures more == if FirstEnd(s) < |s| then Some(s[FirstEnd(s)..]) else None
    ensures more.Some? ==> more.value != "" && more.value[0] == '/'
    ensures links(here + name).None? ==>
      (var w := Onward(links, here, name, more, left);
       Resolve(links, done, Split(s), left) == Walk([here + name] + w.paths, w.complete))
    ensures links(here + name).Some? ==> Resolve(links, done, Split(s), left) == Followed(links, here, name, more, left)
  {
    hide First, FirstEnd, Slashes, NameLength;
    here, name := done + First(s).slashes, First(s).name;
    more := if FirstEnd(s) < |s| then Some(s[FirstEnd(s)..]) else None;
    var comps := Split(s);
    if FirstEnd(s) < |s| {
      assert comps[1..] == Split(s[FirstEnd(s)..]);
      JoinSplit(s[FirstEnd(s)..]);
    } else {
      assert comps[1..] == [];
    }
  }

  /** Before a name, the directory reached ends with a slash. */
  lemma HereEnds(done: string, s: string)
    requires Joins(done, Some(s))
    ensures var here := done + First(s).slashes; here == "" || here[|here| - 1] == '/'
    ensures '/' !in First(s).name
  {
  }

  /** What has been reached ends with a slash, or what follows begins with one. */
  ghost predicate Joins(done: string, rest: Option<string>) {
    done == "" || done[|done| - 1] == '/' || rest.None? || (rest.value != "" && rest.value[0] == '/')
  }

  // ----- what the walk guarantees

  /** Everything up to the end of a component has been found not to be a link. */
  ghost predicate Tested(links: Links, p: string) {
    forall i :: 0 < i <= |p| && p[i - 1] != '/' && (i == |p| || p[i] == '/') ==> links(p[..i]).None?
  }

  lemma TestedFurther(links: Links, done: string, c: Comp)
    requires Tested(links, done)
    requires done == "" || done[|done| - 1] == '/' || (c.slashes != "" && c.slashes[0] == '/')
    requires '/' !in c.name && forall i :: 0 <= i < |c.slashes| ==> c.slashes[i] == '/'
    ensures Tested(links, done + c.slashes)
    ensures links(done + c.slashes + c.name).None? ==> Tested(links, done + c.slashes + c.name)
  {
    var here := done + c.slashes;
    forall i | 0 < i <= |here| && here[i - 1] != '/' && (i == |here| || here[i] == '/') ensures links(here[..i]).None? {
      assert here[..i] == done[..i];
    }
    var p := here + c.name;
    if links(p).None? {
      forall i | 0 < i <= |p| && p[i - 1] != '/' && (i == |p| || p[i] == '/') ensures links(p[..i]).None? {
        if i == |p| {
          assert p[..i] == p;
        } else {
          assert i <= |here|;
          assert p[..i] == here[..i] == done[..i];
        }
      }
    }
  }

  ghost predicate CompsOk(comps: seq<Comp>) {
    && (forall k :: 0 <= k < |comps| ==>
         '/' !in comps[k].name && forall i :: 0 <= i < |comps[k].slashes| ==> comps[k].slashes[i] == '/')
    && (forall k :: 1 <= k < |comps| ==> comps[k].slashes != "")
  }

  lemma {:induction false} SplitOk(s: string)
    ensures CompsOk(Split(s)) && (s != "" && s[0] == '/' ==> Split(s)[0].slashes != "")
    decreases |s|
  {
    var k := FirstEnd(s);
    FirstOk(s);
    hide First, FirstEnd;
    if k < |s| {
      SplitOk(s[k..]);
      assert Split(s)[1..] == Split(s[k..]);
    } else {
      assert Split(s) == [First(s)];
    }
  }

  lemma FirstOk(s: string)
    ensures '/' !in First(s).name && forall i :: 0 <= i < |First(s).slashes| ==> First(s).slashes[i] == '/'
    ensures s != "" && s[0] == '/' ==> First(s).slashes != ""
  {
  }

  /** Every directory of a walk is no link, and neither is any directory on the way to it. */
  lemma {:induction false} WalkTested(links: Links, done: string, comps: seq<Comp>, left: nat)
    requires Tested(links, done) && CompsOk(comps)
    requires comps == [] || done == "" || done[|done| - 1] == '/' || comps[0].slashes != ""
    ensures forall p :: p in Resolve(links, done, comps, left).paths ==> links(p).None? && Tested(links, p)
    decreases left, |comps|
  {
    hide *;
    ResolveStep(links, done, comps, left);
    if comps != [] {
      var here := done + comps[0].slashes;
      var p := here + comps[0].name;
      CompsParts(comps);
      TestedFurther(links, done, comps[0]);
      if links(p).None? {
        WalkTested(links, p, comps[1..], left);
      } else if left > 0 {
        var target := links(p).value;
        var text := target + Join(comps[1..]);
        TestedNothing(links);
        SplitOk(text);
        WalkTested(links, if target != "" && target[0] == '/' then "" else here, Split(text), left - 1);
      }
    }
  }

  lemma ResolveStep(links: Links, done: string, comps: seq<Comp>, left: nat)
    ensures comps == [] ==> Resolve(links, done, comps, left) == Walk([], true)
    ensures comps != [] ==>
      (var here := done + comps[0].slashes;
       var p := here + comps[0].name;
       Resolve(links, done, comps, left) ==
       match links(p)
       case None => var w := Resolve(links, p, comps[1..], left); Walk([p] + w.paths, w.complete)
       case Some(target) =>
         if left == 0 then Walk([], false)
         else Resolve(links, if target != "" && target[0] == '/' then "" else here, Split(target + Join(comps[1..])),
                      left - 1))
  {
  }

  lemma TestedNothing(links: Links)
    ensures Tested(links, "")
  {
  }

  lemma CompsParts(comps: seq<Comp>)
    requires CompsOk(comps) && comps != []
    ensures CompsOk(comps[1..]) && (|comps| > 1 ==> comps[1].slashes != "")
    ensures '/' !in comps[0].name && forall i :: 0 <= i < |comps[0].slashes| ==> comps[0].slashes[i] == '/'
  {
  }

  // ----- where the walk leads

  /** How symbolic links are to be understood, when `at` says what a path leads to: a link in the middle of a path
      stands for what it contains, from the root if that begins with a slash, and else from where it is. */
  ghost predicate LinkLaw<T>(links: Links, at: string -> T) {
    forall here, name, rest :: LawAt(links, at, here, name, rest)
  }

  ghost predicate LawAt<T>(links: Links, at: string -> T, here: string, name: string, rest: string) {
    (here == "" || here[|here| - 1] == '/') && '/' !in name && (rest == "" || rest[0] == '/')
    && links(here + name).Some? && links(here + name).value != "" ==>
      var target := links(here + name).value;
      at(here + name + rest) == at((if target[0] == '/' then "" else here) + target + rest)
  }

  lemma JoinBegins(comps: seq<Comp>)
    requires CompsOk(comps) && comps != []
    ensures Join(comps) == comps[0].slashes + comps[0].name + Join(comps[1..])
    ensures Join(comps[1..]) == "" || Join(comps[1..])[0] == '/'
  {
    if |comps| > 1 {
      var c := comps[1];
      assert comps[1..][0] == c && c.slashes[0] == '/';
    }
  }

  /** A walk that is completed ends at what its text leads to, however many links were on the way. */
  lemma {:induction false} WalkArrives<T>(links: Links, at: string -> T, done: string, comps: seq<Comp>, left: nat)
    requires LinksOk(links) && LinkLaw(links, at) && CompsOk(comps) && Resolve(links, done, comps, left).complete
    requires comps == [] || done == "" || done[|done| - 1] == '/' || comps[0].slashes != ""
    ensures var paths := Resolve(links, done, comps, left).paths;
      (comps != [] ==> paths != [])
      && at(done + Join(comps)) == at(if paths == [] then done else paths[|paths| - 1])
    decreases left, |comps|
  {
    hide *;
    ResolveStep(links, done, comps, left);
    if comps == [] {
      JoinNothing();
      assert done + Join(comps) == done;
    } else {
      CompsParts(comps);
      Peeled(done, comps);
      var p := done + comps[0].slashes + comps[0].name;
      if links(p).None? {
        ResolveStep(links, p, comps[1..], left);
        WalkArrives(links, at, p, comps[1..], left);
      } else {
        var from, text := Turned(links, at, done, comps);
        WalkArrives(links, at, from, Split(text), left - 1);
      }
    }
  }

  lemma Peeled(done: string, comps: seq<Comp>)
    requires CompsOk(comps) && comps != []
    ensures done + Join(comps) == done + comps[0].slashes + comps[0].name + Join(comps[1..])
  {
    JoinBegins(comps);
  }

  /** Where the walk goes on when the first component is a link, and that the text from there leads to the same. */
  lemma Turned<T>(links: Links, at: string -> T, done: string, comps: seq<Comp>) returns (from: string, text: string)
    requires LinksOk(links) && LinkLaw(links, at) && CompsOk(comps) && comps != []
    requires done == "" || done[|done| - 1] == '/' || comps[0].slashes != ""
    requires links(done + comps[0].slashes + comps[0].name).Some?
    ensures var target := links(done + comps[0].slashes + comps[0].name).value;
      && from == (if target != "" && target[0] == '/' then "" else done + comps[0].slashes)
      && text == target + Join(comps[1..])
    ensures CompsOk(Split(text)) && Join(Split(text)) == text
    ensures from == "" || from[|from| - 1] == '/'
    ensures at(done + comps[0].slashes + comps[0].name + Join(comps[1..])) == at(from + text)
  {
    hide *;
    var (here, name, rest) := (done + comps[0].slashes, comps[0].name, Join(comps[1..]));
    LeadsOn(links, here + name);
    CompsParts(comps);
    JoinBegins(comps);
    HereSlash(done, comps[0]);
    var target := links(here + name).value;
    from := if target[0] == '/' then "" else here;
    text := target + rest;
    SplitOk(text);
    JoinSplit(text);
    Law(links, at, here, name, rest);
    assert from + text == from + target + rest;
  }

  lemma JoinNothing()
    ensures Join([]) == ""
  {
  }

  lemma Law<T>(links: Links, at: string -> T, here: string, name: string, rest: string)
    requires LinkLaw(links, at) && (here == "" || here[|here| - 1] == '/') && '/' !in name
    requires (rest == "" || rest[0] == '/') && links(here + name).Some? && links(here + name).value != ""
    ensures var target := links(here + name).value;
      at(here + name + rest) == at((if target[0] == '/' then "" else here) + target + rest)
  {
    assert LawAt(links, at, here, name, rest);
  }

  lemma LeadsOn(links: Links, p: string)
    requires LinksOk(links) && links(p).Some?
    ensures links(p).value != ""
  {
  }

  lemma HereSlash(done: string, c: Comp)
    requires done == "" || done[|done| - 1] == '/' || c.slashes != ""
    requires forall i :: 0 <= i < |c.slashes| ==> c.slashes[i] == '/'
    ensures var here := done + c.slashes; here == "" || here[|here| - 1] == '/'
  {
  }

  /** Everything up to the end of a component has been met. */
  ghost predicate Met(seen: set<string>, p: string) {
    forall i :: 0 < i <= |p| && p[i - 1] != '/' && (i == |p| || p[i] == '/') ==> p[..i] in seen
  }

  lemma MetFurther(seen: set<string>, done: string, c: Comp)
    requires Met(seen, done)
    requires done == "" || done[|done| - 1] == '/' || (c.slashes != "" && c.slashes[0] == '/')
    requires '/' !in c.name && forall i :: 0 <= i < |c.slashes| ==> c.slashes[i] == '/'
    ensures Met(seen, done + c.slashes)
    ensures Met(seen + {done + c.slashes + c.name}, done + c.slashes + c.name)
  {
    var here := done + c.slashes;
    forall i | 0 < i <= |here| && here[i - 1] != '/' && (i == |here| || here[i] == '/') ensures here[..i] in seen {
      assert here[..i] == done[..i];
    }
    var p := here + c.name;
    forall i | 0 < i <= |p| && p[i - 1] != '/' && (i == |p| || p[i] == '/') ensures p[..i] in seen + {p} {
      if i == |p| {
        assert p[..i] == p;
      } else {
        assert i <= |here|;
        assert p[..i] == here[..i] == done[..i];
      }
    }
  }

  lemma MetMore(seen: set<string>, more: set<string>, p: string)
    requires Met(seen, p) && seen <= more
    ensures Met(more, p)
  {
  }

  /** No directory is passed over: every directory on the way to one that a walk returns has itself been returned
      by it, unless it had been met before. */
  lemma {:induction false} WalkMeets(links: Links, done: string, comps: seq<Comp>, left: nat, seen: set<string>)
    requires Met(seen, done) && CompsOk(comps)
    requires comps == [] || done == "" || done[|done| - 1] == '/' || comps[0].slashes != ""
    ensures var paths := Resolve(links, done, comps, left).paths;
      forall p :: p in paths ==> Met(seen + (set q | q in paths), p)
    decreases left, |comps|
  {
    hide *;
    ResolveStep(links, done, comps, left);
    if comps != [] {
      var here := done + comps[0].slashes;
      var p := here + comps[0].name;
      CompsParts(comps);
      MetFurther(seen, done, comps[0]);
      var paths := Resolve(links, done, comps, left).paths;
      if links(p).None? {
        var rest := Resolve(links, p, comps[1..], left).paths;
        WalkMeets(links, p, comps[1..], left, seen + {p});
        MetMore(seen + {p}, seen + (set q | q in paths), p);
        assert seen + {p} + (set q | q in rest) == seen + (set q | q in paths);
      } else if left > 0 {
        var target := links(p).value;
        var text := target + Join(comps[1..]);
        MetNothing(seen);
        SplitOk(text);
        WalkMeets(links, if target != "" && target[0] == '/' then "" else here, Split(text), left - 1, seen);
      }
    }
  }

  lemma WholeWalkMeets(links: Links, comps: seq<Comp>, left: nat)
    requires CompsOk(comps)
    ensures var paths := Resolve(links, "", comps, left).paths;
      forall p :: p in paths ==> Met((set q | q in paths), p)
  {
    var paths := Resolve(links, "", comps, left).paths;
    MetNothing({});
    WalkMeets(links, "", comps, left, {});
    assert {} + (set q | q in paths) == set q | q in paths;
  }

  lemma MetNothing(seen: set<string>)
    ensures Met(seen, "")
  {
  }

  /** Walks down a path to the end. */
  method WalkDown(links: Links, maxSymlinks: nat, origpath: string) returns (paths: seq<string>, complete: bool)
    requires LinksOk(links)
    ensures Walk(paths, complete) == Resolve(links, "", Split(origpath), maxSymlinks)
    ensures forall p :: p in paths ==> links(p).None? && Tested(links, p) && Met((set q | q in paths), p)
  {
    hide Resolve, Split, Tested, Met, CompsOk, Joins, LinksOk;
    var walker := new Walker(links, maxSymlinks);
    walker.Start(origpath);
    paths, complete := [], false;
    SplitOk(origpath);
    TestedNothing(links);
    WalkTested(links, "", Split(origpath), maxSymlinks);
    WholeWalkMeets(links, Split(origpath), maxSymlinks);
    ghost var whole := Resolve(links, "", Split(origpath), maxSymlinks);
    while true
      invariant walker.Valid() && walker.links == links && walker.maxSymlinks == maxSymlinks
      invariant whole == Walk(paths + walker.ToCome().paths, walker.ToCome().complete)
      decreases maxSymlinks - walker.symlinkcount, walker.Left()
    {
      var r := walker.NextPath();
      match r
      case Done =>
        return paths, true;
      case TooManyLinks =>
        return paths, false;
      case Next(p) =>
        paths := paths + [p];
    }
  }
}
