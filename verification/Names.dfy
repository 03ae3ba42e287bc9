/**
 Domain names, IP addresses and the order on text that the other modules share.

 An address is already parsed; `Unmap` is what turns an IPv4-mapped IPv6 address into IPv4.
 */
module Names {

  type Label = string

  /** `www.example.` is Sub("www", Sub("example", Root)): taking the parent drops the leftmost label. */
  datatype Name = Root | Sub(first: Label, parent: Name)

  datatype Option<+T> = None | Some(value: T)

  datatype Result<+T> = Ok(value: T) | Err(error: string)

  function Max(left: nat, right: nat): nat {
    if left < right then right else left
  }

  // ---------- case and validity ----------

  function LowerChar(c: char): char {
    if 'A' <= c <= 'Z' then (c as int + 32) as char else c
  }

  function LowerLabel(text: Label): (lower: Label)
    ensures |lower| == |text|
  {
    seq(|text|, i requires 0 <= i < |text| => LowerChar(text[i]))
  }

  /** ASCII lower-casing of every label; a trailing dot has no counterpart here. */
  function Canonical(name: Name): Name {
    if name.Root? then Root else Sub(LowerLabel(name.first), Canonical(name.parent))
  }

  predicate Lowercase(name: Name) {
    Canonical(name) == name
  }

  lemma {:induction false} CanonicalIdempotent(name: Name)
    ensures Lowercase(Canonical(name))
  {
    if name.Sub? {
      CanonicalIdempotent(name.parent);
      assert LowerLabel(LowerLabel(name.first)) == LowerLabel(name.first);
    }
  }

  predicate HostChar(c: char) {
    'a' <= c <= 'z' || '0' <= c <= '9'
  }

  predicate HostLabel(text: Label) {
    && 1 <= |text| <= 63
    && HostChar(text[0])
    && HostChar(text[|text| - 1])
    && forall i :: 0 <= i < |text| ==> HostChar(text[i]) || text[i] == '-'
  }

  predicate Digit(c: char) {
    '0' <= c <= '9'
  }

  function DigitValue(digit: char): int {
    digit as int - '0' as int
  }

  /** A decimal octet as an IPv4 parser reads it: no leading zero, at most 255. */
  predicate Octet(text: Label) {
    && 1 <= |text| <= 3
    && (forall i :: 0 <= i < |text| ==> Digit(text[i]))
    && (|text| > 1 ==> text[0] != '0')
    && (|text| == 3 ==>
          DigitValue(text[0]) * 100 + DigitValue(text[1]) * 10 + DigitValue(text[2]) <= 255)
  }

  predicate AllLabels(name: Name, good: Label -> bool) {
    name.Root? || (good(name.first) && AllLabels(name.parent, good))
  }

  function Depth(name: Name): nat {
    if name.Root? then 0 else 1 + Depth(name.parent)
  }

  /** Length of the dotted text form. */
  function TextLength(name: Name): nat {
    match name
    case Root => 0
    case Sub(first, Root) => |first|
    case Sub(first, parent) => |first| + 1 + TextLength(parent)
  }

  /** The dotted text form; the root is the empty text. */
  function Text(name: Name): string {
    match name
    case Root => ""
    case Sub(first, Root) => first
    case Sub(first, parent) => first + "." + Text(parent)
  }

  /** The strict host-name check every probe name and every followed link must pass. */
  predicate ValidName(name: Name) {
    && name.Sub?
    && TextLength(name) <= 253
    && AllLabels(name, HostLabel)
    && !(Depth(name) == 4 && AllLabels(name, Octet))
  }

  // ---------- tree structure ----------

  /** `name` is `apex` or lies below it. */
  predicate Under(apex: Name, name: Name) {
    name == apex || (name.Sub? && Under(apex, name.parent))
  }

  lemma {:induction false} UnderTransitive(top: Name, middle: Name, bottom: Name)
    requires Under(top, middle) && Under(middle, bottom)
    ensures Under(top, bottom)
  {
    if middle != bottom {
      UnderTransitive(top, middle, bottom.parent);
    }
  }

  lemma {:induction false} UnderDepth(apex: Name, name: Name)
    requires Under(apex, name)
    ensures Depth(apex) <= Depth(name)
    ensures Depth(apex) == Depth(name) ==> apex == name
  {
    if apex != name {
      UnderDepth(apex, name.parent);
    }
  }

  /** `relative` written below `apex`. */
  function Graft(relative: Name, apex: Name): (name: Name)
    ensures Under(apex, name)
    ensures Depth(name) == Depth(relative) + Depth(apex)
  {
    if relative.Root? then apex else Sub(relative.first, Graft(relative.parent, apex))
  }

  /** The labels left of `apex`. */
  function Relative(name: Name, apex: Name): (relative: Name)
    requires Under(apex, name)
    ensures Graft(relative, apex) == name
  {
    if name == apex then Root else Sub(name.first, Relative(name.parent, apex))
  }

  lemma {:induction false} RelativeOfGraft(relative: Name, apex: Name)
    ensures Relative(Graft(relative, apex), apex) == relative
  {
    if relative.Sub? {
      RelativeOfGraft(relative.parent, apex);
    }
  }

  /** Below `apex`, `Under` on whole names is `Under` on the parts left of `apex`. */
  lemma {:induction false} UnderGraft(upper: Name, lower: Name, apex: Name)
    ensures Under(Graft(upper, apex), Graft(lower, apex)) <==> Under(upper, lower)
  {
    RelativeOfGraft(upper, apex);
    RelativeOfGraft(lower, apex);
    if lower.Sub? {
      UnderGraft(upper, lower.parent, apex);
    } else if Under(Graft(upper, apex), apex) {
      UnderDepth(Graft(upper, apex), apex);
    }
  }

  // ---------- addresses ----------

  /** A parsed IP address. `Mapped` is an IPv4-mapped IPv6 address. */
  datatype Addr = V4(bits: nat) | V6(bits: nat, zone: string) | Mapped(bits: nat, zone: string) {
    predicate Is4() { V4? }

    predicate Is6() { !V4? }

    function Zone(): string { if V4? then "" else zone }

    function Unmap(): Addr { if Mapped? then V4(bits) else this }
  }

  /** Address text as the parser reads it. */
  datatype AddressText = Malformed(text: string) | Parsed(addr: Addr) {
    /** The text denotes `address` once IPv4-mapped forms are unwrapped. */
    predicate Is(address: Addr) { Parsed? && addr.Unmap() == address }
  }
}
