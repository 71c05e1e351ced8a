/** get_next_line: lines of a file through a small buffer (gnl/get_next_line.c, get_next_line_utils.c). */
module LineReader {
  import opened CTypes

  // ----- what the lines of a text are -----

  /** The position of the first newline, or the length. */
  function LineEnd(s: string): (n: nat)
    ensures n <= |s| && '\n' !in s[..n] && (n < |s| ==> s[n] == '\n')
  {
    if s == "" || s[0] == '\n' then 0
    else
      var n := LineEnd(s[1..]);
      assert s[..n + 1] == [s[0]] + s[1..][..n];
      n + 1
  }

  function Head(s: string): string {
    s[..LineEnd(s)]
  }

  function Tail(s: string): (t: string)
    ensures s != "" ==> |t| < |s|
  {
    if LineEnd(s) < |s| then s[LineEnd(s) + 1..] else ""
  }

  /** The lines of a text without their newlines; a final newline adds no line. */
  function Lines(s: string): seq<string>
    decreases |s|
  {
    if s == "" then [] else [Head(s)] + Lines(Tail(s))
  }

  function Unlines(lines: seq<string>): string {
    if lines == [] then "" else lines[0] + "\n" + Unlines(lines[1..])
  }

  /** Nothing is lost by cutting a line off. */
  lemma {:induction false} LineConserves(s: string)
    ensures s == Head(s) + (if '\n' in s then "\n" else "") + Tail(s)
  {
    var n := LineEnd(s);
    if n < |s| {
      assert s == s[..n] + [s[n]] + s[n + 1..];
    } else {
      assert s[..n] == s;
    }
  }

  /** The text with the newline its last line may lack. */
  function Completed(s: string): string {
    if s == "" || s[|s| - 1] == '\n' then s else s + "\n"
  }

  lemma CompletedTail(s: string)
    requires s != ""
    ensures Completed(s) == Head(s) + "\n" + Completed(Tail(s))
  {
    LineConserves(s);
    FirstNewline(s, |s|);
    var h, t := Head(s), Tail(s);
    if '\n' in s {
      assert s == h + "\n" + t;
      if t == "" {
        assert s == h + "\n";
      } else {
        assert t[|t| - 1] == s[|s| - 1];
      }
    } else {
      assert s == h;
      assert s[|s| - 1] in s;
    }
  }

  /** The lines, each with a newline, give the text back, up to a newline missing at its end. */
  lemma {:induction false} LinesRebuild(s: string)
    ensures Unlines(Lines(s)) == Completed(s)
    ensures forall k :: 0 <= k < |Lines(s)| ==> '\n' !in Lines(s)[k]
    decreases |s|
  {
    if s != "" {
      LinesRebuild(Tail(s));
      CompletedTail(s);
      assert Lines(s)[1..] == Lines(Tail(s));
    }
  }

  /** Cutting a line off a text that already holds a whole line does not depend on what follows. */
  lemma {:induction false} LineIsLocal(s: string, more: string)
    requires '\n' in s
    ensures LineEnd(s + more) == LineEnd(s) < |s|
    ensures Head(s + more) == Head(s) && Tail(s + more) == Tail(s) + more
  {
    FirstNewline(s, LineEnd(s));
    FirstNewline(s + more, LineEnd(s));
  }

  lemma FirstNewline(s: string, n: nat)
    requires n <= |s|
    ensures '\n' in s ==> LineEnd(s) < |s|
    ensures n < |s| && s[n] == '\n' && '\n' !in s[..n] ==> LineEnd(s) == n
  {
    var e := LineEnd(s);
    if e == |s| {
      assert s[..e] == s;
    }
    assert n < e ==> s[..e][n] == s[n];
    assert e < n ==> s[..n][e] == s[e];
  }

  // ----- C strings -----

  /** The array holds the string s with its terminating NUL. */
  ghost predicate IsStr(a: array<char>, s: string)
    reads a
  {
    |s| < a.Length && a[..|s|] == s && a[|s|] == '\0' && '\0' !in s
  }

  lemma NoNulInside(a: array<char>, s: string)
    requires IsStr(a, s)
    ensures forall k :: 0 <= k < |s| ==> a[k] == s[k] != '\0'
  {
    forall k | 0 <= k < |s| ensures a[k] == s[k] != '\0' {
      assert a[..|s|][k] == a[k];
      assert s[k] in s;
    }
  }

  method FtStrlenGnl(str: array<char>, from: nat, ghost s: string) returns (i: nat)
    requires IsStr(str, s) && from <= |s|
    ensures i == |s| - from
  {
    NoNulInside(str, s);
    i := 0;
    while str[from + i] != '\0'
      invariant from + i <= |s|
      decreases |s| - from - i
    {
      i := i + 1;
    }
  }

  /** The index of the first newline, or -1. */
  method CheckN(str: array<char>, ghost s: string) returns (i: int)
    requires IsStr(str, s)
    ensures i == if LineEnd(s) < |s| then LineEnd(s) else -1
  {
    NoNulInside(str, s);
    i := 0;
    while str[i] != '\0'
      invariant 0 <= i <= |s| && '\n' !in s[..i]
      decreases |s| - i
    {
      if str[i] == '\n' {
        FirstNewline(s, i);
        return;
      }
      i := i + 1;
    }
    FirstNewline(s, |s|);
    assert s[..i] == s;
    i := -1;
  }

  method FtCallocGnl(count: nat) returns (str: array<char>)
    ensures fresh(str) && str.Length == count && forall k :: 0 <= k < count ==> str[k] == '\0'
  {
    str := new char[count];
    var i := 0;
    while i < count
      invariant i <= count && forall k :: 0 <= k < i ==> str[k] == '\0'
    {
      str[i] := '\0';
      i := i + 1;
    }
  }

  /** Copies the string from position `from` on to the end of a prefix. */
  method CopyTail(dst: array<char>, at: nat, src: array<char>, from: nat, ghost s: string) returns (end: nat)
    requires IsStr(src, s) && from <= |s| && at + |s| - from < dst.Length && dst != src
    modifies dst
    ensures end == at + |s| - from
    ensures dst[..end] == old(dst[..at]) + s[from..]
  {
    NoNulInside(src, s);
    end := at;
    var j := from;
    while src[j] != '\0'
      invariant from <= j <= |s| && end == at + j - from && IsStr(src, s)
      invariant dst[..end] == old(dst[..at]) + s[from..j]
      invariant forall k :: 0 <= k < |s| ==> src[k] != '\0'
      decreases |s| - j
    {
      dst[end] := src[j];
      end := end + 1;
      j := j + 1;
    }
  }

  /** Concatenation into a fresh buffer of exactly the needed size. */
  method FtStrjoinGnl(stock: array<char>, tmp: array<char>, ghost s: string, ghost t: string) returns (str: array<char>)
    requires IsStr(stock, s) && IsStr(tmp, t)
    ensures fresh(str) && IsStr(str, s + t)
  {
    var a := FtStrlenGnl(stock, 0, s);
    var b := FtStrlenGnl(tmp, 0, t);
    str := FtCallocGnl(a + b + 1);
    var i := CopyTail(str, 0, stock, 0, s);
    i := CopyTail(str, i, tmp, 0, t);
    str[i] := '\0';
  }

  /** Duplicates the string up to and including index i. */
  method FtStrndupGnl(stock: array<char>, i: int, ghost s: string) returns (line: array<char>)
    requires IsStr(stock, s) && -1 <= i
    ensures fresh(line) && IsStr(line, if i < |s| then s[..i + 1] else s)
  {
    var j: int := 0;
    line := FtCallocGnl(i + 2);
    while j <= i && stock[j] != '\0'
      invariant 0 <= j <= i + 1 && j <= |s| && line[..j] == s[..j]
      decreases i - j
    {
      line[j] := stock[j];
      j := j + 1;
    }
    assert j < |s| ==> s[j] in s;
    line[j] := '\0';
    assert line[..j] == if i < |s| then s[..i + 1] else s;
  }

  /** The first line of the stock, NULL if there is none. */
  method CreateLine(stock: array<char>, ghost s: string) returns (line: array?<char>)
    requires IsStr(stock, s)
    ensures line == null <==> s == ""
    ensures line != null ==> fresh(line) && IsStr(line, Head(s))
  {
    NoNulInside(stock, s);
    if stock[0] == '\0' {
      return null;
    }
    var i := CheckN(stock, s);
    if i == -1 {
      i := FtStrlenGnl(stock, 0, s);
    }
    line := FtStrndupGnl(stock, i - 1, s);
  }

  /** What follows the first newline, NULL if there is no newline. */
  method CleanStock(stock: array<char>, ghost s: string) returns (clean: array?<char>)
    requires IsStr(stock, s)
    ensures clean == null <==> LineEnd(s) == |s|
    ensures clean != null ==> fresh(clean) && IsStr(clean, Tail(s))
  {
    var i := CheckN(stock, s);
    if i == -1 {
      return null;
    }
    var rest := FtStrlenGnl(stock, i, s);
    var buffer := FtCallocGnl(rest + 1);
    var j := CopyTail(buffer, 0, stock, i + 1, s);
    buffer[j] := '\0';
    clean := buffer;
  }

  // ----- the reader -----

  /** An open file: its text and how much of it has been read. */
  class File {
    const content: string
    var pos: nat

    constructor (content: string)
      ensures this.content == content && pos == 0
    {
      this.content := content;
      pos := 0;
    }

    /** read(fd, buf, size): any number of the next characters, at least one unless all have been read. */
    method Read(buf: array<char>, size: nat) returns (count: nat)
      requires pos <= |content| && 1 <= size <= buf.Length
      modifies this, buf
      ensures count <= size && pos == old(pos) + count <= |content|
      ensures count == 0 <==> old(pos) == |content|
      ensures buf[..count] == content[old(pos)..pos]
    {
      var most := if size < |content| - pos then size else |content| - pos;
      count := 0;
      if most > 0 {
        count :| 1 <= count <= most;
      }
      var i := 0;
      while i < count
        invariant i <= count && pos == old(pos) && pos + count <= |content|
        invariant buf[..i] == content[pos..pos + i]
      {
        buf[i] := content[pos + i];
        i := i + 1;
      }
      pos := pos + count;
    }
  }

  /** get_next_line with its static buffer; `text` is what the buffer holds. */
  class Reader {
    const file: File
    const bufferSize: nat
    var stock: array?<char>
    ghost var text: string

    constructor (file: File, bufferSize: nat)
      requires file.pos == 0 && '\0' !in file.content && bufferSize >= 1
      ensures this.file == file && Valid() && Rest() == file.content
    {
      this.file := file;
      this.bufferSize := bufferSize;
      stock := null;
      text := "";
      new;
      assert "" + file.content == file.content;
    }

    ghost predicate Valid()
      reads this, file, if stock == null then {} else {stock}
    {
      && bufferSize >= 1
      && file.pos <= |file.content| && '\0' !in file.content
      && (if stock == null then text == "" else IsStr(stock, text))
    }

    /** The text that has not been returned yet: what is buffered, then what is unread. */
    ghost function Rest(): string
      requires file.pos <= |file.content|
      reads this, file
    {
      text + file.content[file.pos..]
    }

    /** One turn of the read loop: a chunk moves from the file to the stock. */
    method ReadChunk(tmp: array<char>, buffered: array<char>, ghost s: string)
      returns (joined: array<char>, count: nat, newline: bool)
      requires Valid() && tmp.Length == bufferSize + 1 && IsStr(buffered, s) && tmp != buffered
      modifies file, tmp
      ensures count <= bufferSize && file.pos == old(file.pos) + count <= |file.content|
      ensures count == 0 <==> old(file.pos) == |file.content|
      ensures fresh(joined) && IsStr(joined, s + file.content[old(file.pos)..file.pos])
      ensures newline <==> '\n' in file.content[old(file.pos)..file.pos]
    {
      ghost var before := file.pos;
      count := file.Read(tmp, bufferSize);
      tmp[count] := '\0';
      ghost var chunk := file.content[before..file.pos];
      assert tmp[..count] == chunk;
      assert '\0' !in chunk by {
        assert forall k :: 0 <= k < |chunk| ==> chunk[k] in file.content;
      }
      joined := FtStrjoinGnl(buffered, tmp, s, chunk);
      var at := CheckN(tmp, chunk);
      newline := at != -1;
      FirstNewline(chunk, |chunk|);
      assert LineEnd(chunk) < |chunk| ==> chunk[LineEnd(chunk)] in chunk;
    }

    /** Reads chunk after chunk until one brings a newline or the file ends. */
    method CreateStock()
      requires Valid()
      modifies this, file
      ensures Valid() && stock != null && (stock == old(stock) || fresh(stock))
      ensures Rest() == old(Rest())
      ensures '\n' in text || file.pos == |file.content|
    {
      var buffered := stock;
      ghost var s := text;
      if buffered == null {
        buffered := FtCallocGnl(1);
      }
      var tmp := FtCallocGnl(bufferSize + 1);
      var count: nat := 1;
      while count > 0
        invariant fresh(tmp) && tmp.Length == bufferSize + 1 && tmp != buffered
        invariant buffered != null && IsStr(buffered, s) && Valid() && stock == old(stock)
        invariant buffered == old(stock) || fresh(buffered)
        invariant s + file.content[file.pos..] == old(Rest())
        invariant count == 0 ==> file.pos == |file.content|
        decreases |file.content| - file.pos + if count > 0 then 1 else 0
      {
        ghost var before := file.pos;
        var newline;
        buffered, count, newline := ReadChunk(tmp, buffered, s);
        ghost var chunk := file.content[before..file.pos];
        assert file.content[before..] == chunk + file.content[file.pos..];
        s := s + chunk;
        if newline {
          assert '\n' in s;
          break;
        }
      }
      stock := buffered;
      text := s;
    }

    /** Returns the next line of the file, whatever the sizes of the chunks, and NULL when
        there is none; what was not returned is still to come, in order. */
    method GetNextLine() returns (line: array?<char>)
      requires Valid()
      modifies this, file
      ensures Valid()
      ensures line == null <==> old(Rest()) == ""
      ensures line != null ==> fresh(line) && IsStr(line, Head(old(Rest())))
      ensures Rest() == Tail(old(Rest()))
    {
      CreateStock();
      ghost var s, unread := text, file.content[file.pos..];
      LinesMeet(s, unread);
      line := CreateLine(stock, s);
      stock := CleanStock(stock, s);
      text := if LineEnd(s) < |s| then Tail(s) else "";
      assert stock == null ==> "" + unread == unread;
    }
  }

  /** A stock that holds a whole line, or the whole rest, gives the next line of the rest. */
  lemma LinesMeet(s: string, unread: string)
    requires '\n' in s || unread == ""
    ensures Head(s + unread) == Head(s)
    ensures Tail(s + unread) == (if LineEnd(s) < |s| then Tail(s) else "") + unread
    ensures s + unread == "" <==> s == ""
  {
    if '\n' in s {
      LineIsLocal(s, unread);
    } else {
      assert s + unread == s;
    }
  }

  /** get_next_line, its result taken as text; None for NULL. */
  method NextText(reader: Reader) returns (line: Option<string>)
    requires reader.Valid()
    modifies reader, reader.file
    ensures reader.Valid()
    ensures line == if old(reader.Rest()) == "" then None else Some(Head(old(reader.Rest())))
    ensures reader.Rest() == Tail(old(reader.Rest()))
  {
    ghost var rest := reader.Rest();
    var str := reader.GetNextLine();
    if str == null {
      return None;
    }
    var n := FtStrlenGnl(str, 0, Head(rest));
    line := Some(str[..n]);
  }

  /** Of all lines some are stored, the next one has been read, and those of the rest are to come. */
  ghost predicate Pending(all: seq<string>, stored: seq<string>, next: Option<string>, rest: string) {
    match next
    case None => all == stored && rest == ""
    case Some(line) => all == stored + [line] + Lines(rest)
  }

  lemma OneLineMore(all: seq<string>, stored: seq<string>, line: string, rest: string)
    requires Pending(all, stored, Some(line), rest)
    ensures |stored| < |all|
    ensures Pending(all, stored + [line], if rest == "" then None else Some(Head(rest)), Tail(rest))
  {
  }

  method StoreLine(tmp: array<string>, i: nat, line: string, ghost stored: seq<string>)
    requires i < tmp.Length && tmp[..i] == stored
    modifies tmp
    ensures tmp[..i + 1] == stored + [line]
  {
    tmp[i] := line;
  }

  /** One turn of the loop of main_gnl: store a line, read the next one. */
  method NextEntry(reader: Reader, tmp: array<string>, i: nat, line: string, ghost all: seq<string>)
    returns (next: Option<string>)
    requires reader.Valid() && i < tmp.Length && Pending(all, tmp[..i], Some(line), reader.Rest())
    modifies reader, reader.file, tmp
    ensures reader.Valid() && Pending(all, tmp[..i + 1], next, reader.Rest())
    ensures i < |all|
    ensures if next.Some? then |reader.Rest()| < |old(reader.Rest())| else reader.Rest() == ""
  {
    ghost var stored, rest := tmp[..i], reader.Rest();
    OneLineMore(all, stored, line, rest);
    StoreLine(tmp, i, line, stored);
    next := NextText(reader);
  }

  const TABLE: nat := 1024

  /** The loop of main_gnl, from the first line on. */
  method ReadLines(reader: Reader, tmp: array<string>, first: Option<string>, ghost all: seq<string>)
    returns (i: nat, next: Option<string>)
    requires reader.Valid() && Pending(all, [], first, reader.Rest())
    modifies reader, reader.file, tmp
    ensures i <= tmp.Length && i <= |all| && (next.Some? ==> i == tmp.Length)
    ensures reader.Valid() && Pending(all, tmp[..i], next, reader.Rest())
  {
    i, next := 0, first;
    assert tmp[..i] == [];
    while next.Some? && i != tmp.Length
      invariant i <= tmp.Length && i <= |all| && reader.Valid()
      invariant Pending(all, tmp[..i], next, reader.Rest())
      decreases next.Some?, |reader.Rest()|
    {
      next := NextEntry(reader, tmp, i, next.value, all);
      i := i + 1;
    }
  }

  lemma LinesStored(all: seq<string>, stored: seq<string>, next: Option<string>, rest: string)
    requires Pending(all, stored, next, rest)
    ensures all[..|stored|] == stored && (next == None <==> |all| == |stored|)
  {
  }

  lemma FirstPending(content: string, first: Option<string>, rest: string)
    requires first == if content == "" then None else Some(Head(content))
    requires rest == Tail(content)
    ensures Pending(Lines(content), [], first, rest)
  {
    if content != "" {
      var head := [Head(content)];
      assert [] + head == head;
      assert Lines(content) == head + Lines(rest);
    }
  }

  lemma {:induction false} NewlinesAreLines(s: string)
    requires forall k :: 0 <= k < |s| ==> s[k] == '\n'
    ensures |Lines(s)| == |s|
  {
    if s != "" {
      assert LineEnd(s) == 0;
      NewlinesAreLines(Tail(s));
    }
  }

  /** A file that the table has no room for: 1024 newlines. */
  lemma NewlinesOverrunTable()
    ensures |Lines(seq(1024, _ => '\n'))| == 1024
  {
    NewlinesAreLines(seq(1024, _ => '\n'));
  }

  /** main_gnl: all lines of the file, unless there are 1024 lines or more: the table is then
      full and its terminating NULL is stored behind its end (`overrun`). */
  method MainGnl(file: File, bufferSize: nat) returns (tab: seq<string>, overrun: bool)
    requires file.pos == 0 && '\0' !in file.content && bufferSize >= 1
    modifies file
    ensures overrun <==> |Lines(file.content)| >= 1024
    ensures tab == if overrun then Lines(file.content)[..1024] else Lines(file.content)
  {
    var reader := new Reader(file, bufferSize);
    var tmp := new string[TABLE];
    var first := NextText(reader);
    ghost var all := Lines(file.content);
    FirstPending(file.content, first, reader.Rest());
    var i, next := ReadLines(reader, tmp, first, all);
    LinesStored(all, tmp[..i], next, reader.Rest());
    overrun := i == TABLE;
    tab := tmp[..i];
  }
}
