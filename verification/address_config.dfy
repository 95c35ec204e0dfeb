/**
 * The port address bookkeeping shared by the back-to-back scripts (back2back/ipv4.py,
 * back2back/tcp.py, back2back/httpmulticlient.py and the multicast examples carry the same
 * lines): an address value that the SDK returned as a list (the DHCPv6 and SLAAC answers,
 * whose entries read "address/prefix") is reduced to the text of its first entry before any
 * '/'; the text a static configuration stores is kept as it is.
 */
module AddressConfig {
  import opened Wrappers
  import opened Text

  /** What `config['ip_address']` holds after provisioning: a text, or a list of addresses. */
  datatype AddressValue = Single(text: string) | Many(items: seq<string>)

  /**
   * `if not isinstance(ip_address, str): ip = ip_address[0]; if '/' in ip: ip_address =
   * ip.split('/')[0]`. An empty list raises IndexError; a first entry without '/' leaves the
   * list in place.
   */
  function Normalise(v: AddressValue): (r: Result<AddressValue>)
    ensures v.Single? ==> r == Ok(v)
    ensures v.Many? && |v.items| == 0 ==> r == Err(IndexError)
    ensures v.Many? && |v.items| > 0 && '/' !in v.items[0] ==> r == Ok(v)
    ensures v.Many? && |v.items| > 0 && '/' in v.items[0] ==>
      r.Ok? && r.value.Single? && '/' !in r.value.text && StartsWith(v.items[0], r.value.text + "/")
  {
    match v
    case Single(_) => Ok(v)
    case Many(items) =>
      if |items| == 0 then Err(IndexError)
      else if '/' in items[0] then
        var head := BeforeFirst(items[0], '/');
        assert (head + "/") == items[0][..|head| + 1];
        Ok(Single(head))
      else Ok(v)
  }

  /** An IPv6 address with its prefix length, "address/prefix", as the SDK lists them. */
  function PrefixedText(address: string, prefixLength: string): string
  {
    address + "/" + prefixLength
  }

  /**
   * A DHCPv6 or SLAAC answer whose first entry is "address/prefix" normalises to the bare
   * address, and normalising that again changes nothing.
   */
  lemma NormaliseListedAddress(address: string, prefixLength: string)
    requires '/' !in address
    ensures Normalise(Many([PrefixedText(address, prefixLength)])) == Ok(Single(address))
    ensures Normalise(Normalise(Many([PrefixedText(address, prefixLength)])).value)
         == Normalise(Many([PrefixedText(address, prefixLength)]))
  {
    var t := PrefixedText(address, prefixLength);
    assert t[|address|] == '/';
    var head := BeforeFirst(t, '/');
    assert t[..|address|] == address;
  }
}
