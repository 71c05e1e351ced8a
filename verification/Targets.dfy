/** The hosts named by --ip and --file (parsing/ip.c): look-ups, and the texts they leave. */
module Targets {
  import opened CTypes
  import opened Decimal
  import opened Split
  import opened Ipv4
  import opened Packet
  import LineReader

  /** What the program asks of the outside: the address of a name, and the content of a file. */
  datatype World = World(lookup: string -> Option<Address>, files: string -> Option<string>)

  // ----- addresses as text -----

  /** The dotted text of an address (inet_ntop). */
  function Ntop(a: Address): string {
    NatText(a[0]) + "." + NatText(a[1]) + "." + NatText(a[2]) + "." + NatText(a[3])
  }

  function AddressOf(toks: seq<string>): Option<Address> {
    if OctetTokens(toks) then Some([AtoiOf(toks[0]), AtoiOf(toks[1]), AtoiOf(toks[2]), AtoiOf(toks[3])]) else None
  }

  /** The address of a dotted text (getaddrinfo on a numeric host). */
  function Pton(s: string): Option<Address> {
    AddressOf(Tokens(s, '.'))
  }

  lemma OctetText(b: byte)
    ensures Octet(NatText(b)) && AtoiOf(NatText(b)) == b
    ensures Value(AtoiRun(NatText(b))) <= INT_MAX
  {
    ValueOfNatText(b);
    assert "" + NatText(b) == NatText(b);
    ReadsItsDigits(false, NatText(b));
  }

  lemma JoinSlices(a: string, b: string, c: string, d: string, s: string, i: nat, j: nat, k: nat)
    requires s == a + "." + b + "." + c + "." + d
    requires i == |a| && j == i + 1 + |b| && k == j + 1 + |c|
    ensures k < |s| && s[i] == s[j] == s[k] == '.'
    ensures s[..i] == a && s[i + 1..j] == b && s[j + 1..k] == c && s[k + 1..] == d
  {
  }

  /** Four octets with dots between them. */
  lemma JoinedQuad(a: string, b: string, c: string, d: string, s: string)
    requires Octet(a) && Octet(b) && Octet(c) && Octet(d) && s == a + "." + b + "." + c + "." + d
    ensures Quad(s) && Tokens(s, '.') == [a, b, c, d]
  {
    var i, j, k := |a|, |a| + 1 + |b|, |a| + 1 + |b| + 1 + |c|;
    JoinSlices(a, b, c, d, s, i, j, k);
    assert QuadAt(s, i, j, k);
    QuadTokens(s, i, j, k);
  }

  lemma AddressTokens(a: Address)
    ensures Quad(Ntop(a))
    ensures Tokens(Ntop(a), '.') == [NatText(a[0]), NatText(a[1]), NatText(a[2]), NatText(a[3])]
  {
    OctetText(a[0]);
    OctetText(a[1]);
    OctetText(a[2]);
    OctetText(a[3]);
    JoinedQuad(NatText(a[0]), NatText(a[1]), NatText(a[2]), NatText(a[3]), Ntop(a));
  }

  lemma OctetTexts(a: Address, toks: seq<string>)
    requires |toks| == 4 && forall i :: 0 <= i < 4 ==> toks[i] == NatText(a[i])
    ensures OctetTokens(toks)
    ensures forall i :: 0 <= i < 4 ==> AtoiOf(toks[i]) == a[i] && Value(AtoiRun(toks[i])) <= INT_MAX
  {
    forall i | 0 <= i < 4
      ensures AllDigits(toks[i]) && AtoiOf(toks[i]) == a[i] && Value(AtoiRun(toks[i])) <= INT_MAX
    {
      OctetText(a[i]);
    }
  }

  lemma AddressOfTexts(a: Address, toks: seq<string>)
    requires |toks| == 4 && forall i :: 0 <= i < 4 ==> toks[i] == NatText(a[i])
    ensures AddressOf(toks) == Some(a)
    ensures forall i :: 0 <= i < |toks| ==> Value(AtoiRun(toks[i])) <= INT_MAX
  {
    OctetTexts(a, toks);
    assert [a[0], a[1], a[2], a[3]] == a;
  }

  /** The text of an address passes the dotted-quad check and reads back as the address. */
  lemma TextOfAddress(a: Address)
    ensures Quad(Ntop(a)) && Pton(Ntop(a)) == Some(a)
    ensures forall t :: t in Tokens(Ntop(a), '.') ==> Value(AtoiRun(t)) <= INT_MAX
  {
    AddressTokens(a);
    AddressOfTexts(a, Tokens(Ntop(a), '.'));
  }

  function Dotted(addresses: seq<Address>): (texts: seq<string>)
    ensures |texts| == |addresses| && forall i :: 0 <= i < |texts| ==> texts[i] == Ntop(addresses[i])
  {
    seq(|addresses|, i requires 0 <= i < |addresses| => Ntop(addresses[i]))
  }

  // ----- look-ups -----

  predicate AllResolve(world: World, names: seq<string>) {
    forall i :: 0 <= i < |names| ==> world.lookup(names[i]).Some?
  }

  const NOWHERE: Address := [0, 0, 0, 0]

  /** The addresses of names, all of which are expected to resolve. */
  function Resolved(world: World, names: seq<string>): (a: seq<Address>)
    ensures |a| == |names| && forall i :: 0 <= i < |a| ==> a[i] == world.lookup(names[i]).GetOr(NOWHERE)
  {
    seq(|names|, i requires 0 <= i < |names| => world.lookup(names[i]).GetOr(NOWHERE))
  }

  /** The text of the address of a name. */
  method GetIpByHostname(world: World, name: string) returns (text: Option<string>)
    ensures text == match world.lookup(name) case Some(a) => Some(Ntop(a)) case None => None
  {
    var a := world.lookup(name);
    if a.None? {
      return None;
    }
    return Some(Ntop(a.value));
  }

  /** One turn of either loop: the text of the address, which the dotted-quad check never rejects. */
  method ResolveOne(world: World, name: string) returns (text: Option<string>)
    ensures text == match world.lookup(name) case Some(a) => Some(Ntop(a)) case None => None
  {
    text := GetIpByHostname(world, name);
    if text.Some? {
      TextOfAddress(world.lookup(name).value);
      var quad := IpIpv4Deeper(text.value);
      if !quad {
        text := None;
      }
    }
  }

  /** The loop over the names of --ip, and the one over the lines of --file: each name is
      replaced by the text of its address. */
  method ResolveAll(world: World, names: seq<string>) returns (outcome: Outcome, texts: seq<string>)
    ensures outcome == Continue <==> AllResolve(world, names)
    ensures outcome == Continue ==> texts == Dotted(Resolved(world, names))
  {
    texts := [];
    var i := 0;
    while i < |names|
      invariant 0 <= i <= |names| && |texts| == i
      invariant forall k :: 0 <= k < i ==>
                  world.lookup(names[k]).Some? && texts[k] == Ntop(world.lookup(names[k]).value)
    {
      var text := ResolveOne(world, names[i]);
      if text.None? {
        return Exit, texts;
      }
      texts := texts + [text.value];
      i := i + 1;
    }
    return Continue, texts;
  }

  // ----- the file -----

  /** A file that main_gnl reads as text and has room for. */
  ghost predicate Readable(content: string) {
    '\0' !in content && |LineReader.Lines(content)| < LineReader.TABLE
  }

  const BUFFER_SIZE: nat := 10

  /** The lines of the file, None if it cannot be opened. */
  method ReadFile(world: World, name: string) returns (tab: Option<seq<string>>)
    requires world.files(name).Some? ==> Readable(world.files(name).value)
    ensures tab == match world.files(name) case Some(text) => Some(LineReader.Lines(text)) case None => None
  {
    var content := world.files(name);
    if content.None? {
      return None;
    }
    var file := new LineReader.File(content.value);
    var lines, overrun := LineReader.MainGnl(file, BUFFER_SIZE);
    return Some(lines);
  }

  /** The lines of a file that can be opened. */
  function LinesOf(world: World, name: string): seq<string> {
    LineReader.Lines(world.files(name).GetOr(""))
  }
}
