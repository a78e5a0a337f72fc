/**
 The diagnostics document and the reader that delivers it in chunks: a preamble, whatever the user's reader
 returns, a postamble, and the files of the flash, each after a heading.
 */
module Diagnostics {

  /** The part of the file system that an upload reads; it does not change meanwhile. */
  datatype Disk = Disk(prefix: string, maxPath: nat, files: map<string, string>)

  function Heading(name: string): string { "\n\n# File " + name + ":\n" }

  predicate PathFits(d: Disk, name: string) { |d.prefix| + |name| < d.maxPath }

  /** Files with a path that is too long and files that cannot be opened are skipped. */
  predicate Readable(d: Disk, name: string) { PathFits(d, name) && d.prefix + name in d.files }

  /** The size of the heading buffer always suffices, so the heading of a readable file is never cut. */
  const HEADING_ROOM: nat := 30

  lemma HeadingFits(d: Disk, name: string)
    requires |d.prefix + name| < d.maxPath
    ensures |Heading(name)| < HEADING_ROOM + d.maxPath
  {
  }

  function From(s: string, offset: nat): string { if offset <= |s| then s[offset..] else "" }

  /** What remains of the files: the last one in the list is next, and offset bytes of it are delivered. */
  function FilesText(d: Disk, names: seq<string>, offset: nat): string {
    if names == [] then ""
    else
      var name := names[|names| - 1];
      (if !Readable(d, name) then ""
       else (if offset == 0 then Heading(name) else "") + From(d.files[d.prefix + name], offset))
      + FilesText(d, names[..|names| - 1], 0)
  }

  /** What the document has of one file: if its path fits the buffer and it is there, a heading and all of it. */
  function Section(d: Disk, name: string): string {
    if |d.prefix + name| < d.maxPath && d.prefix + name in d.files
    then "\n\n# File " + name + ":\n" + d.files[d.prefix + name]
    else ""
  }

  /** The end of the document: these files, one after the other. */
  function FilesInOrder(d: Disk, names: seq<string>): string {
    if names == [] then "" else Section(d, names[0]) + FilesInOrder(d, names[1..])
  }

  /** Each listed file has its own section there, between those of the files before and behind it. */
  lemma FileIsInDocument(d: Disk, names: seq<string>, k: nat)
    requires k < |names|
    ensures var before, behind := FilesInOrder(d, names[..k]), FilesInOrder(d, names[k + 1..]);
            FilesInOrder(d, names)
            == if |d.prefix + names[k]| < d.maxPath && d.prefix + names[k] in d.files
               then before + ("\n\n# File " + names[k] + ":\n" + d.files[d.prefix + names[k]]) + behind
               else before + behind
  {
    hide FilesInOrder;
    SectionsInOrder(d, names, k);
  }

  lemma {:induction false} SectionsInOrder(d: Disk, names: seq<string>, k: nat)
    requires k < |names|
    ensures FilesInOrder(d, names)
            == FilesInOrder(d, names[..k]) + Section(d, names[k]) + FilesInOrder(d, names[k + 1..])
  {
    hide Section, FilesInOrder;
    FirstSection(d, names);
    if k > 0 {
      SectionsInOrder(d, names[1..], k - 1);
      FirstSection(d, names[..k]);
      assert names[..k][1..] == names[1..][..k - 1] && names[1..][k..] == names[k + 1..];
    } else {
      assert names[..0] == [];
      NoSection(d);
    }
  }

  lemma FirstSection(d: Disk, names: seq<string>)
    requires names != []
    ensures FilesInOrder(d, names) == Section(d, names[0]) + FilesInOrder(d, names[1..])
  {
  }

  lemma NoSection(d: Disk)
    ensures FilesInOrder(d, []) == ""
  {
  }

  lemma {:induction false} ReversedAt(s: seq<string>, k: nat)
    requires k < |s|
    ensures Reversed(s)[k] == s[|s| - 1 - k]
  {
    if k > 0 {
      ReversedAt(s[..|s| - 1], k - 1);
    }
  }

  function Reversed(s: seq<string>): (r: seq<string>)
    ensures |r| == |s|
  {
    if s == [] then [] else [s[|s| - 1]] + Reversed(s[..|s| - 1])
  }

  /** Every readable file is in the document once, with its heading and its whole content. */
  lemma {:induction false} EveryFileOnce(d: Disk, names: seq<string>)
    ensures FilesText(d, names, 0) == FilesInOrder(d, Reversed(names))
  {
    if names != [] {
      var init := names[..|names| - 1];
      EveryFileOnce(d, init);
      assert Reversed(names)[1..] == Reversed(init);
    }
  }

  /** With this room in the buffer no progress is possible: the next heading does not fit. */
  predicate HeadingBlocks(d: Disk, names: seq<string>, offset: nat, room: nat) {
    && names != []
    && var name, init := names[|names| - 1], names[..|names| - 1];
       if !Readable(d, name) then HeadingBlocks(d, init, 0, room)
       else if offset == 0 then |Heading(name)| >= room
       else From(d.files[d.prefix + name], offset) == "" && HeadingBlocks(d, init, 0, room)
  }

  lemma {:induction false} LargeBuffersAreNeverBlocked(d: Disk, names: seq<string>, offset: nat, room: nat)
    requires room >= HEADING_ROOM + d.maxPath
    ensures !HeadingBlocks(d, names, offset, room)
  {
    if names != [] {
      LargeBuffersAreNeverBlocked(d, names[..|names| - 1], 0, room);
    }
  }

  method Append(buf: array<char>, written: nat, data: string) returns (w: nat)
    requires written + |data| <= buf.Length
    modifies buf
    ensures w == written + |data| && buf[..w] == old(buf[..written]) + data
  {
    for i := 0 to |data|
      invariant buf[..written] == old(buf[..written])
      invariant buf[written..written + i] == data[..i]
    {
      buf[written + i] := data[i];
      assert buf[written..written + i + 1] == buf[written..written + i] + [data[i]];
      assert data[..i + 1] == data[..i] + [data[i]];
    }
    w := written + |data|;
    assert buf[..w] == buf[..written] + buf[written..w];
    assert data[..|data|] == data;
  }

  function Min(a: nat, b: nat): nat { if a <= b then a else b }

  /** n bytes of the content were appended to what was delivered before. */
  lemma ContentSplits(before: string, content: string, offset: nat, n: nat, others: string)
    requires offset + n <= |content|
    ensures From(content, offset + n) == content[offset + n..] && (From(content, offset) == "" <==> offset == |content|)
    ensures (before + content[offset..offset + n]) + (From(content, offset + n) + others)
            == before + (From(content, offset) + others)
    ensures n == |content| - offset ==>
              (before + content[offset..offset + n]) + others == before + (From(content, offset) + others)
  {
    assert content[offset..] == content[offset..offset + n] + content[offset + n..];
  }

  lemma StartedFile(d: Disk, names: seq<string>, offset: nat)
    requires names != [] && Readable(d, names[|names| - 1])
    ensures var name := names[|names| - 1];
            var rest := From(d.files[d.prefix + name], offset) + FilesText(d, names[..|names| - 1], 0);
            FilesText(d, names, offset) == if offset == 0 then Heading(name) + rest else rest
  {
    hide Heading, From;
  }

  lemma UnreadableIsSkipped(d: Disk, names: seq<string>, offset: nat, room: nat)
    requires names != [] && !Readable(d, names[|names| - 1])
    ensures FilesText(d, names, offset) == FilesText(d, names[..|names| - 1], 0)
    ensures HeadingBlocks(d, names, offset, room) == HeadingBlocks(d, names[..|names| - 1], 0, room)
  {
  }

  lemma ReadableBlocks(d: Disk, names: seq<string>, offset: nat, room: nat)
    requires names != [] && Readable(d, names[|names| - 1])
    ensures var name, init := names[|names| - 1], names[..|names| - 1];
            HeadingBlocks(d, names, offset, room)
            <==> if offset == 0 then |Heading(name)| >= room
                 else From(d.files[d.prefix + name], offset) == "" && HeadingBlocks(d, init, 0, room)
  {
  }

  lemma NoFiles(d: Disk, offset: nat, room: nat)
    ensures FilesText(d, [], offset) == "" && !HeadingBlocks(d, [], offset, room)
  {
  }

  lemma HeadingIsNotEmpty(name: string)
    ensures Heading(name) != ""
  {
  }

  /** Two parts of the document are taken one after the other; the second only when the first is empty. */
  lemma Join(first: string, x: string, x0: string, both: string, y: string, y0: string, size: nat)
    requires first + x == x0 && both + y == first + y0
    requires |first| <= |both| <= size && (|first| < size ==> x == "")
    ensures both + (x + y) == x0 + y0
    ensures |both| == 0 && size > 0 ==> x0 == "" && y == y0
    ensures x0 == "" ==> |first| == 0
  {
    if |first| < size {
      assert first == x0 && x + y == y;
    } else {
      assert both == (both + y)[..size] && y == (both + y)[size..];
      assert first == (first + y0)[..size] && y0 == (first + y0)[size..];
      assert both + (x + y) == (both + x) + y;
    }
  }

  class DiagnosticsReader {
    const preamble: string
    const postamble: string
    const disk: Disk
    var preambleTransferred: nat
    var readerHasData: bool
    var readerRest: string          // what the user's reader is going to return
    var postambleTransferred: nat
    var fileList: seq<string>
    var filesBackTransferred: nat

    ghost predicate Valid()
      reads this
    {
      && preambleTransferred <= |preamble| && postambleTransferred <= |postamble|
      && (!readerHasData ==> readerRest == "")
      && (filesBackTransferred > 0 ==>
            fileList != [] && Readable(disk, fileList[|fileList| - 1])
            && filesBackTransferred <= |disk.files[disk.prefix + fileList[|fileList| - 1]]|)
    }

    ghost function Files(): string
      reads this
    {
      FilesText(disk, fileList, filesBackTransferred)
    }

    /** What has not been delivered yet. */
    ghost function Rest(): string
      requires Valid()
      reads this
    {
      preamble[preambleTransferred..] + readerRest + postamble[postambleTransferred..] + Files()
    }

    constructor (preamble: string, readerOutput: string, hasReader: bool, postamble: string, disk: Disk,
                 names: seq<string>)
      requires !hasReader ==> readerOutput == ""
      ensures Valid() && this.disk == disk
      ensures Rest() == preamble + readerOutput + postamble + FilesInOrder(disk, Reversed(names))
    {
      this.preamble, this.postamble, this.disk := preamble, postamble, disk;
      preambleTransferred, postambleTransferred, filesBackTransferred := 0, 0, 0;
      readerHasData, readerRest, fileList := hasReader, readerOutput, names;
      new;
      EveryFileOnce(disk, names);
    }

    method TakePreamble(buf: array<char>, size: nat, written: nat) returns (w: nat)
      requires Valid() && written <= size <= buf.Length
      modifies buf, this`preambleTransferred
      ensures Valid() && written <= w <= size && (w < size ==> preambleTransferred == |preamble|)
      ensures buf[..w] + preamble[preambleTransferred..] == old(buf[..written]) + preamble[old(preambleTransferred)..]
    {
      w := written;
      if written < size && preambleTransferred < |preamble| {
        var writeLen := Min(size - written, |preamble| - preambleTransferred);
        ghost var before := preamble[preambleTransferred..];
        w := Append(buf, written, preamble[preambleTransferred..preambleTransferred + writeLen]);
        preambleTransferred := preambleTransferred + writeLen;
        assert before == before[..writeLen] + preamble[preambleTransferred..];
      }
    }

    /** chunk: how much the user's reader returns; at least one byte until it has no more data. */
    method TakeReader(buf: array<char>, size: nat, written: nat, chunk: nat -> nat) returns (w: nat)
      requires Valid() && written <= size <= buf.Length
      modifies buf, this`readerRest, this`readerHasData
      ensures Valid() && written <= w <= size && (w < size ==> readerRest == "")
      ensures buf[..w] + readerRest == old(buf[..written]) + old(readerRest)
    {
      w := written;
      while w < size && readerHasData
        invariant Valid() && written <= w <= size
        invariant buf[..w] + readerRest == old(buf[..written]) + old(readerRest)
        decreases readerHasData, size - w
      {
        if readerRest == "" {
          readerHasData := false;
        } else {
          var writeLen := Min(Min(size - w, |readerRest|), 1 + chunk(w));
          ghost var before, all := readerRest, buf[..w] + readerRest;
          assert before == before[..writeLen] + before[writeLen..];
          w := Append(buf, w, readerRest[..writeLen]);
          readerRest := readerRest[writeLen..];
          assert buf[..w] + readerRest == all;
        }
      }
    }

    method TakePostamble(buf: array<char>, size: nat, written: nat) returns (w: nat)
      requires Valid() && written <= size <= buf.Length
      modifies buf, this`postambleTransferred
      ensures Valid() && written <= w <= size && (w < size ==> postambleTransferred == |postamble|)
      ensures buf[..w] + postamble[postambleTransferred..]
              == old(buf[..written]) + postamble[old(postambleTransferred)..]
    {
      w := written;
      if written < size && postambleTransferred < |postamble| {
        var writeLen := Min(size - written, |postamble| - postambleTransferred);
        ghost var before := postamble[postambleTransferred..];
        w := Append(buf, written, postamble[postambleTransferred..postambleTransferred + writeLen]);
        postambleTransferred := postambleTransferred + writeLen;
        assert before == before[..writeLen] + postamble[postambleTransferred..];
      }
    }

    method SkipFile()
      requires fileList != []
      modifies this`fileList, this`filesBackTransferred
      ensures fileList == old(fileList[..|fileList| - 1]) && filesBackTransferred == 0
    {
      fileList := fileList[..|fileList| - 1];
      filesBackTransferred := 0;
    }

    /** The content of the next file, as much as fits; at its end the file is done. */
    method TakeContent(buf: array<char>, size: nat, written: nat, name: string) returns (w: nat)
      requires Valid() && written < size <= buf.Length
      requires fileList != [] && name == fileList[|fileList| - 1] && Readable(disk, name)
      modifies buf, this`fileList, this`filesBackTransferred
      ensures Valid() && written <= w <= size
      ensures buf[..w] + Files()
              == old(buf[..written]) + (From(disk.files[disk.prefix + name], old(filesBackTransferred))
                                        + FilesText(disk, old(fileList[..|fileList| - 1]), 0))
      ensures w == written <==> From(disk.files[disk.prefix + name], old(filesBackTransferred)) == ""
      ensures (w == size && fileList == old(fileList))
              || (fileList == old(fileList[..|fileList| - 1]) && filesBackTransferred == 0)
    {
      hide FilesText, Heading, From;
      var content := disk.files[disk.prefix + name];
      var writeLen := Min(size - written, |content| - filesBackTransferred);
      ghost var before, offset := buf[..written], filesBackTransferred;
      ghost var others := FilesText(disk, fileList[..|fileList| - 1], 0);
      w := Append(buf, written, content[filesBackTransferred..filesBackTransferred + writeLen]);
      filesBackTransferred := filesBackTransferred + writeLen;
      ContentSplits(before, content, offset, writeLen, others);
      if writeLen < size - written {
        SkipFile();
      } else {
        StartedFile(disk, fileList, filesBackTransferred);
      }
    }

    /** The heading, unless it was delivered before, and then the content. */
    method TakeFile(buf: array<char>, size: nat, written: nat, name: string) returns (w: nat, blocked: bool)
      requires Valid() && written < size <= buf.Length
      requires fileList != [] && name == fileList[|fileList| - 1] && Readable(disk, name)
      modifies buf, this`fileList, this`filesBackTransferred
      ensures Valid() && written <= w <= size
      ensures buf[..w] + Files() == old(buf[..written]) + old(Files())
      ensures blocked <==> old(filesBackTransferred) == 0 && |Heading(name)| + written >= size
      ensures blocked ==> w == written && fileList == old(fileList) && filesBackTransferred == 0
      ensures !blocked ==> (w == size && fileList == old(fileList))
                           || (fileList == old(fileList[..|fileList| - 1]) && filesBackTransferred == 0)
      ensures !blocked ==> (w == written <==> old(filesBackTransferred) > 0
                                              && From(disk.files[disk.prefix + name], old(filesBackTransferred)) == "")
    {
      hide Readable, FilesText, From, Heading;
      w := written;
      StartedFile(disk, fileList, filesBackTransferred);
      if filesBackTransferred == 0 {
        var heading := Heading(name);
        assert heading != "" by { HeadingIsNotEmpty(name); }
        if |heading| + written >= size {
          return w, true;
        }
        w := Append(buf, w, heading);
      }
      w := TakeContent(buf, size, w, name);
      blocked := false;
    }

    method TakeFiles(buf: array<char>, size: nat, written: nat) returns (w: nat)
      requires Valid() && written <= size <= buf.Length
      modifies buf, this`fileList, this`filesBackTransferred
      ensures Valid() && written <= w <= size
      ensures buf[..w] + Files() == old(buf[..written]) + old(Files())
      ensures w == written < size ==>
                old(Files()) == "" || HeadingBlocks(disk, old(fileList), old(filesBackTransferred), size - written)
      ensures HeadingBlocks(disk, old(fileList), old(filesBackTransferred), size - written) ==> w == written
    {
      hide FilesText, HeadingBlocks, From, Heading;
      w := written;
      ghost var room := size - written;
      while w < size && fileList != []
        invariant Valid() && written <= w <= size
        invariant buf[..w] + Files() == old(buf[..written]) + old(Files())
        invariant HeadingBlocks(disk, old(fileList), old(filesBackTransferred), room) <==>
                  w == written && HeadingBlocks(disk, fileList, filesBackTransferred, room)
        decreases |fileList|, size - w
      {
        var name := fileList[|fileList| - 1];
        if !PathFits(disk, name) {
          UnreadableIsSkipped(disk, fileList, filesBackTransferred, room);
          SkipFile();
        } else if disk.prefix + name in disk.files {
          ReadableBlocks(disk, fileList, filesBackTransferred, room);
          var blocked;
          w, blocked := TakeFile(buf, size, w, name);
          if blocked {
            return;
          }
        } else {
          UnreadableIsSkipped(disk, fileList, filesBackTransferred, room);
          SkipFile();
        }
      }
      NoFiles(disk, filesBackTransferred, room);
    }

    /** Everything but files is delivered, and the next heading does not fit. */
    ghost predicate Blocked(size: nat)
      requires Valid()
      reads this
    {
      && preamble[preambleTransferred..] == "" && readerRest == "" && postamble[postambleTransferred..] == ""
      && HeadingBlocks(disk, fileList, filesBackTransferred, size)
    }

    /**
     One call of the reader: the next bytes of the document are in the buffer. Nothing is returned when the
     whole document was delivered, and otherwise only if the buffer is too small for a heading.
     */
    method Read(buf: array<char>, size: nat, chunk: nat -> nat) returns (written: nat)
      requires Valid() && size <= buf.Length
      modifies this, buf
      ensures Valid() && written <= size
      ensures old(Rest()) == buf[..written] + Rest()
      ensures size > 0 ==> (written == 0 <==> old(Rest()) == "" || old(Blocked(size)))
      ensures size >= HEADING_ROOM + disk.maxPath ==> (written == 0 <==> old(Rest()) == "")
    {
      hide FilesText, HeadingBlocks, Readable;
      if size >= HEADING_ROOM + disk.maxPath {
        LargeBuffersAreNeverBlocked(disk, fileList, filesBackTransferred, size);
      }
      ghost var p0, r0 := preamble[preambleTransferred..], readerRest;
      ghost var q0, f0 := postamble[postambleTransferred..], Files();
      written := TakePreamble(buf, size, 0);
      ghost var b1, p := buf[..written], preamble[preambleTransferred..];
      assert b1 + p == p0;
      written := TakeReader(buf, size, written, chunk);
      ghost var b2, r := buf[..written], readerRest;
      Join(b1, p, p0, b2, r, r0, size);
      written := TakePostamble(buf, size, written);
      ghost var b3, q := buf[..written], postamble[postambleTransferred..];
      Join(b2, p + r, p0 + r0, b3, q, q0, size);
      written := TakeFiles(buf, size, written);
      Join(b3, p + r + q, p0 + r0 + q0, buf[..written], Files(), f0, size);
    }
  }
}
