/**
 * The BPF capture filters the scripts hand to triggers: a conjunction of primitives such as
 * `ip dst X` or `udp port P`, joined by " and ". Each script builds its filter by string
 * formatting; this module is the reference those strings are proved equal to.
 */
module Bpf {
  import opened Text

  datatype Primitive =
    | IpDst(address: string)
    | IpSrc(address: string)
    | IpHost(address: string)
    | Ip6Dst(address: string)
    | Ip6Host(address: string)
    | EtherHost(mac: string)
    | Vlan(id: int)
    | UdpPort(port: int)
    | UdpDstPort(port: int)
    | SrcPort(port: int)
    | DstPort(port: int)
    | Udp
    | Ip

  function Render(p: Primitive): (r: string)
    ensures |r| > 0
  {
    match p
    case IpDst(a) => "ip dst " + a
    case IpSrc(a) => "ip src " + a
    case IpHost(a) => "ip host " + a
    case Ip6Dst(a) => "ip6 dst " + a
    case Ip6Host(a) => "ip6 host " + a
    case EtherHost(m) => "ether host " + m
    case Vlan(v) => "vlan " + IntText(v)
    case UdpPort(n) => "udp port " + IntText(n)
    case UdpDstPort(n) => "udp dst port " + IntText(n)
    case SrcPort(n) => "src port " + IntText(n)
    case DstPort(n) => "dst port " + IntText(n)
    case Udp => "udp"
    case Ip => "ip"
  }

  function RenderAll(ps: seq<Primitive>): (r: seq<string>)
    ensures |r| == |ps|
    ensures forall i :: 0 <= i < |ps| ==> r[i] == Render(ps[i])
  {
    if |ps| == 0 then [] else [Render(ps[0])] + RenderAll(ps[1..])
  }

  /** The filter text that accepts frames matching every primitive. */
  function Conjunction(ps: seq<Primitive>): string
  {
    Join(RenderAll(ps), " and ")
  }

  lemma {:induction false} JoinAppend(parts: seq<string>, last: string, sep: string)
    requires |parts| >= 1
    ensures Join(parts + [last], sep) == Join(parts, sep) + sep + last
    decreases |parts|
  {
    if |parts| == 1 {
      assert Join(parts + [last], sep) == parts[0] + sep + Join([last], sep);
    } else {
      assert (parts + [last])[1..] == parts[1..] + [last];
      JoinAppend(parts[1..], last, sep);
    }
  }

  /** Adding a primitive at the end appends " and " and its text. */
  lemma ConjunctionAppend(ps: seq<Primitive>, q: Primitive)
    requires |ps| >= 1
    ensures Conjunction(ps + [q]) == Conjunction(ps) + " and " + Render(q)
  {
    assert RenderAll(ps + [q]) == RenderAll(ps) + [Render(q)];
    JoinAppend(RenderAll(ps), Render(q), " and ");
  }

  /** Adding a primitive at the front prefixes its text and " and ". */
  lemma ConjunctionPrepend(p: Primitive, ps: seq<Primitive>)
    requires |ps| >= 1
    ensures Conjunction([p] + ps) == Render(p) + " and " + Conjunction(ps)
  {
    assert RenderAll([p] + ps) == [Render(p)] + RenderAll(ps);
    assert RenderAll([p] + ps)[1..] == RenderAll(ps);
  }

  lemma Conjunction1(p: Primitive)
    ensures Conjunction([p]) == Render(p)
  {
    assert RenderAll([p]) == [Render(p)];
  }

  lemma Conjunction2(p: Primitive, q: Primitive)
    ensures Conjunction([p, q]) == Render(p) + " and " + Render(q)
  {
    Conjunction1(p);
    ConjunctionAppend([p], q);
    assert [p] + [q] == [p, q];
  }

  lemma Conjunction3(p: Primitive, q: Primitive, u: Primitive)
    ensures Conjunction([p, q, u]) == Render(p) + " and " + Render(q) + " and " + Render(u)
  {
    Conjunction2(p, q);
    ConjunctionAppend([p, q], u);
    assert [p, q] + [u] == [p, q, u];
  }

  lemma Conjunction4(p: Primitive, q: Primitive, u: Primitive, v: Primitive)
    ensures Conjunction([p, q, u, v])
         == Render(p) + " and " + Render(q) + " and " + Render(u) + " and " + Render(v)
  {
    Conjunction3(p, q, u);
    ConjunctionAppend([p, q, u], v);
    assert [p, q, u] + [v] == [p, q, u, v];
  }

  lemma Conjunction5(p: Primitive, q: Primitive, u: Primitive, v: Primitive, w: Primitive)
    ensures Conjunction([p, q, u, v, w])
         == Render(p) + " and " + Render(q) + " and " + Render(u) + " and " + Render(v) + " and " + Render(w)
  {
    Conjunction4(p, q, u, v);
    ConjunctionAppend([p, q, u, v], w);
    assert [p, q, u, v] + [w] == [p, q, u, v, w];
  }
}
