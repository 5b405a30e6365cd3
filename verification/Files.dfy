/** The directory that the coordinator and the workers share. */
module Files {
  import opened Rpc
  import opened Bags
  import opened Names

  type Fs = map<Name, string>

  function Content(fs: Fs, n: Name): string { if n in fs then fs[n] else "" }

  /** Opening for append creates the file if need be. */
  function Appended(fs: Fs, n: Name, text: string): Fs { fs[n := Content(fs, n) + text] }

  function Moved(fs: Fs, n: Name): Fs
    requires n in fs
  {
    (fs - {n})[Renamed(n) := fs[n]]
  }

  /** Renaming one file after the other, up to the first that is missing. */
  function RenameAll(fs: Fs, names: seq<Name>): (Fs, bool)
    decreases |names|
  {
    if names == [] then (fs, true)
    else if names[0] !in fs then (fs, false)
    else RenameAll(Moved(fs, names[0]), names[1..])
  }

  function RemoveAll(fs: Fs, names: seq<Name>): (Fs, bool)
    decreases |names|
  {
    if names == [] then (fs, true)
    else if names[0] !in fs then (fs, false)
    else RemoveAll(fs - {names[0]}, names[1..])
  }

  /** What `deleteFiles("m-out*")` leaves. */
  function WithoutMapOuts(fs: Fs): Fs { map n | n in fs && !n.MapOut? :: fs[n] }

  /** The finished intermediate files, in some order. */
  ghost predicate Lists(fs: Fs, outs: seq<Name>)
  {
    NoDup(outs) && forall n :: n in outs <==> n in fs && n.MapOut?
  }

  class Dir {
    var files: Fs

    constructor (fs: Fs)
      ensures files == fs
    {
      files := fs;
    }

    method Append(n: Name, text: string)
      modifies this
      ensures files == Appended(old(files), n, text)
    {
      assert "" + text == text;
      if n in files { files := files[n := files[n] + text]; } else { files := files[n := text]; }
    }

    method Read(n: Name) returns (content: Option<string>)
      ensures content == if n in files then Some(files[n]) else None
    {
      if n in files { content := Some(files[n]); } else { content := None; }
    }

    method Rename(n: Name) returns (ok: bool)
      modifies this
      ensures ok == (n in old(files)) && files == if ok then Moved(old(files), n) else old(files)
    {
      ok := n in files;
      if ok { files := Moved(files, n); }
    }

    method Remove(n: Name) returns (ok: bool)
      modifies this
      ensures ok == (n in old(files)) && files == if ok then old(files) - {n} else old(files)
    {
      ok := n in files;
      if ok { files := files - {n}; }
    }

    /** The names come in some order. */
    method Glob() returns (outs: seq<Name>)
      ensures Lists(files, outs)
    {
      outs := [];
      var rest := files.Keys;
      while rest != {}
        invariant rest <= files.Keys && NoDup(outs)
        invariant forall n :: n in outs <==> n in files && n !in rest && n.MapOut?
        decreases |rest|
      {
        var n :| n in rest;
        rest := rest - {n};
        if n.MapOut? { outs := outs + [n]; }
      }
    }

    method DeleteMapOuts()
      modifies this
      ensures files == WithoutMapOuts(old(files))
    {
      var outs := Glob();
      for i := 0 to |outs|
        invariant forall n :: n in files <==> n in old(files) && n !in outs[..i]
        invariant forall n :: n in files ==> files[n] == old(files)[n]
      {
        assert outs[i] in outs;
        assert outs[i] in files by { assert outs[i] !in outs[..i]; }
        var ok := Remove(outs[i]);
        assert outs[..i + 1] == outs[..i] + [outs[i]];
      }
      assert outs[..|outs|] == outs;
      assert files.Keys == WithoutMapOuts(old(files)).Keys;
    }
  }
}
