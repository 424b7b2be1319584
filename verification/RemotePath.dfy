/** The commander's remote path: a DOS path string that stands for a stack of
    directory names. */
module RemotePath {
  import opened Protocol

  // ---- The code ------------------------------------------------------------------

  // strrchr(s, '\\') as an index, -1 when there is none.
  function LastSlash(s: string): (i: int)
    ensures -1 <= i < |s|
    decreases |s|
  {
    if s == "" then -1
    else if s[|s| - 1] == '\\' then |s| - 1
    else LastSlash(s[..|s| - 1])
  }

  function Parent(dir: string): string {
    var tmp := dir[..Min(|dir|, RMTDOS_PATH_BYTES - 1)];
    var cut := if |tmp| > 3 && tmp[|tmp| - 1] == '\\' then tmp[..|tmp| - 1] else tmp;
    var slash := LastSlash(cut);
    if slash > 2 then cut[..slash] else if slash >= 0 then cut[..slash + 1] else cut
  }

  function Joined(dir: string, name: string): string {
    if name == "." || name == "" then dir
    else if name == ".." then Parent(dir)
    else dir + (if dir != "" && dir[|dir| - 1] == '\\' then "" else "\\") + name
  }

  // remote_path_join: None when the result does not fit.
  function Join(outLen: nat, dir: string, name: string): Option<string> {
    var s := Joined(dir, name);
    if |s| >= outLen then None else Some(s)
  }

  datatype PanelEntry = PanelEntry(name: string, isDir: bool)

  class Commander {
    var remotePath: string
    var loaded: bool
    var entries: seq<PanelEntry>
    var selected: nat

    ghost predicate Valid()
      reads this
    {
      entries != [] ==> selected < |entries|
    }

    constructor ()
      ensures Valid() && remotePath == "C:\\" && !loaded
    {
      remotePath, loaded, entries, selected := "C:\\", false, [], 0;
    }

    // remote_panel_load with the listing that was fetched, if any. The first
    // entry is selected.
    method Load(listing: Option<seq<PanelEntry>>)
      requires Valid()
      modifies this`loaded, this`entries, this`selected
      ensures Valid() && loaded == listing.Some?
      ensures listing.Some? ==> entries == listing.value && selected == 0
    {
      loaded := listing.Some?;
      if listing.Some? {
        entries := listing.value;
        selected := 0;
      }
    }

    method FindLastSlash(s: string) returns (i: int)
      ensures i == LastSlash(s)
    {
      i := |s| - 1;
      assert s[..|s|] == s;
      while i >= 0
        invariant -1 <= i < |s|
        invariant LastSlash(s) == LastSlash(s[..i + 1])
      {
        if s[i] == '\\' {
          return;
        }
        assert s[..i + 1][..|s[..i + 1]| - 1] == s[..i];
        i := i - 1;
      }
    }

    // remote_path_join.
    method PathJoin(outLen: nat, dir: string, name: string) returns (out: Option<string>)
      ensures out == Join(outLen, dir, name)
    {
      var s;
      if name == "." || name == "" {
        s := dir;
      } else if name == ".." {
        var tmp := dir[..Min(|dir|, RMTDOS_PATH_BYTES - 1)];
        if |tmp| > 3 && tmp[|tmp| - 1] == '\\' {
          tmp := tmp[..|tmp| - 1];
        }
        var slash := FindLastSlash(tmp);
        if slash > 2 {
          tmp := tmp[..slash];
        } else if slash >= 0 {
          tmp := tmp[..slash + 1];
        }
        s := tmp;
      } else {
        s := dir;
        assert dir + "" == dir;
        if !(dir != "" && dir[|dir| - 1] == '\\') {
          s := s + "\\";
        }
        s := s + name;
      }
      out := if |s| >= outLen then None else Some(s);
    }

    // remote_panel_enter; `listing` is what the directory will turn out to hold.
    method Enter(listing: Option<seq<PanelEntry>>)
      requires Valid()
      modifies this
      ensures Valid()
      ensures var path := old(remotePath);
              var joined := if old(loaded && entries != [] && entries[selected].isDir)
                            then Join(RMTDOS_PATH_BYTES, path, old(entries[selected].name)) else None;
              && remotePath == (if joined.Some? then joined.value else path)
              && (joined.Some? ==> loaded == listing.Some?)
              && (joined.Some? && listing.Some? ==> entries == listing.value && selected == 0)
              && (joined == None ==> unchanged(this))
    {
      if !loaded || entries == [] {
        return;
      }
      var entry := entries[selected];
      if !entry.isDir {
        return;
      }
      var next := PathJoin(RMTDOS_PATH_BYTES, remotePath, entry.name);
      if next == None {
        return;
      }
      remotePath := next.value;
      Load(listing);
    }
  }

  // ---- The stack it stands for -----------------------------------------------------

  predicate Enterable(name: string) {
    '\\' !in name
  }

  predicate Plain(stack: seq<string>) {
    forall n <- stack :: n != "" && '\\' !in n
  }

  function Tail(stack: seq<string>): string {
    if stack == [] then "" else Tail(stack[..|stack| - 1]) + "\\" + stack[|stack| - 1]
  }

  function Render(stack: seq<string>): string {
    if stack == [] then "C:\\" else "C:" + Tail(stack)
  }

  // The drive, and each name behind one backslash.
  lemma RenderedPath(stack: seq<string>, name: string)
    ensures Render([]) == "C:\\" && Render([name]) == "C:\\" + name
    ensures stack != [] ==> Render(stack + [name]) == Render(stack) + "\\" + name
  {
    assert [name][..0] == [] && Tail([name]) == "" + "\\" + name;
    assert "C:" + ("" + "\\" + name) == "C:\\" + name;
    if stack != [] {
      assert (stack + [name])[..|stack|] == stack;
      assert "C:" + (Tail(stack) + "\\" + name) == "C:" + Tail(stack) + "\\" + name;
    }
  }

  predicate Fits(stack: seq<string>) {
    |Render(stack)| < RMTDOS_PATH_BYTES
  }

  // Entering: "." stays, ".." goes up and stays at the root, a name goes down.
  function Entered(stack: seq<string>, name: string): seq<string> {
    if name == "." || name == "" then stack
    else if name == ".." then (if stack == [] then [] else stack[..|stack| - 1])
    else stack + [name]
  }

  // A move whose path would be too long is not made.
  function Moved(stack: seq<string>, name: string): seq<string> {
    if Fits(Entered(stack, name)) then Entered(stack, name) else stack
  }

  function Visited(stack: seq<string>, names: seq<string>): seq<string>
    decreases |names|
  {
    if names == [] then stack else Visited(Moved(stack, names[0]), names[1..])
  }

  lemma {:induction false} LastSlashBefore(s: string, name: string)
    requires '\\' !in name
    ensures LastSlash(s + "\\" + name) == |s|
    decreases |name|
  {
    var all := s + "\\" + name;
    if name == "" {
      assert all == s + "\\";
    } else {
      var n := |name| - 1;
      assert all[..|all| - 1] == s + "\\" + name[..n];
      LastSlashBefore(s, name[..n]);
    }
  }

  lemma LastIsPlain(stack: seq<string>)
    requires Plain(stack) && stack != []
    ensures stack[|stack| - 1] != "" && '\\' !in stack[|stack| - 1]
  {
    assert stack[|stack| - 1] in stack;
  }

  // Going up from s\last, where s is "C:" or longer.
  lemma ParentCuts(s: string, last: string)
    requires last != "" && '\\' !in last && |s| >= 2 && |s + "\\" + last| < RMTDOS_PATH_BYTES
    ensures Parent(s + "\\" + last) == if |s| > 2 then s else s + "\\"
  {
    var dir := s + "\\" + last;
    assert dir[..|dir|] == dir;
    assert dir[|dir| - 1] == last[|last| - 1];
    LastSlashBefore(s, last);
    hide LastSlash;
    assert dir[..|s|] == s;
    assert dir[..|s| + 1] == s + "\\";
  }

  lemma ParentIsPop(stack: seq<string>)
    requires Plain(stack) && Fits(stack) && stack != []
    ensures Parent(Render(stack)) == Render(stack[..|stack| - 1])
  {
    var up, last := stack[..|stack| - 1], stack[|stack| - 1];
    var s := "C:" + Tail(up);
    LastIsPlain(stack);
    assert Render(stack) == s + "\\" + last;
    ParentCuts(s, last);
    hide Parent;
    assert up != [] ==> |s| > 2;
    assert up == [] ==> s + "\\" == "C:\\";
  }

  lemma RootIsItsParent()
    ensures Parent("C:\\") == "C:\\"
  {
    var root := "C:\\";
    assert root[..|root|] == root;
    assert LastSlash(root) == 2;
  }

  lemma PushIsAppend(stack: seq<string>, name: string)
    requires Plain(stack) && name != "" && name != "." && name != ".."
    ensures Joined(Render(stack), name) == Render(stack + [name])
  {
    hide Parent;
    var path := Render(stack);
    assert (stack + [name])[..|stack|] == stack;
    assert Render(stack + [name]) == "C:" + Tail(stack + [name]) == "C:" + (Tail(stack) + "\\" + name);
    if stack == [] {
      assert path == "C:\\" && path[|path| - 1] == '\\';
      assert path + "" + name == "C:" + ("" + "\\" + name);
    } else {
      LastIsPlain(stack);
      PathEndsPlain(stack);
      assert path + "\\" + name == "C:" + (Tail(stack) + "\\" + name);
    }
  }

  lemma PathEndsPlain(stack: seq<string>)
    requires Plain(stack) && stack != []
    ensures Render(stack) == "C:" + Tail(stack) && Render(stack)[|Render(stack)| - 1] != '\\'
  {
    LastIsPlain(stack);
    var last := stack[|stack| - 1];
    assert Render(stack)[|Render(stack)| - 1] == last[|last| - 1];
    assert last[|last| - 1] in last;
  }

  // One enter is one stack move.
  lemma EnterRefinesStack(stack: seq<string>, name: string)
    requires Plain(stack) && Fits(stack) && Enterable(name)
    ensures Plain(Moved(stack, name)) && Fits(Moved(stack, name))
    ensures Join(RMTDOS_PATH_BYTES, Render(stack), name)
            == (if Fits(Entered(stack, name)) then Some(Render(Entered(stack, name))) else None)
  {
    if name == ".." {
      if stack != [] {
        ParentIsPop(stack);
        assert |Tail(stack[..|stack| - 1])| <= |Tail(stack)|;
      } else {
        RootIsItsParent();
      }
    } else if name != "." && name != "" {
      PushIsAppend(stack, name);
    }
  }

  // Over any sequence of enters from the root the path is the rendering of the
  // stack the same moves give.
  lemma {:induction false} PathRefinesStack(stack: seq<string>, names: seq<string>)
    requires Plain(stack) && Fits(stack) && forall n <- names :: Enterable(n)
    ensures PathAfter(Render(stack), names) == Render(Visited(stack, names))
    ensures Plain(Visited(stack, names)) && Fits(Visited(stack, names))
    decreases |names|
  {
    if names != [] {
      EnterRefinesStack(stack, names[0]);
      PathRefinesStack(Moved(stack, names[0]), names[1..]);
    }
  }

  function PathAfter(path: string, names: seq<string>): string
    decreases |names|
  {
    if names == [] then path
    else PathAfter(match Join(RMTDOS_PATH_BYTES, path, names[0])
                   case Some(next) => next
                   case None => path, names[1..])
  }
}
