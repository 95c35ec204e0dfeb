# ByteBlower example scripts, modelled in Dafny

The ByteBlower Python examples are scripts that drive a ByteBlower traffic generator. They connect
to a ByteBlower server, a MeetingPoint or a Wireless Endpoint. They create ports and flows. They
build Ethernet/IPv4/IPv6/UDP/TCP frames, start traffic, poll counters and histories, and then
compute and print or plot results: loss, throughput, latency, RSSI tables and QED shares.

This project models the local logic of those scripts in Dafny: everything each script computes
itself, between SDK calls. Every value a script reads from the API becomes a parameter of the model.
Examples are port and device lists, counter snapshots, history samples and timestamps. Every call
that configures a remote object becomes a recorded command or is left out. The result is a set of
functions, methods and small classes whose contracts state what the scripts promise. Those
promises cover:
- frame sizes and payload lengths, including Ethernet overheads;
- hexadecimal frame strings and their decoding;
- BPF capture filter texts;
- port and address allocation;
- the duration/size rule for HTTP requests;
- Mbit/s and loss arithmetic;
- CSV rows and the RSSI categories;
- the QED percentile classification;
- the Prometheus-style counters of the server overview.

## Layout

There is one module per script, named after it, plus shared modules. Each shared module defines
once a concept that several scripts repeat:

- `Wrappers`: `Option`, `Result` and the Python exception kinds a script can raise.
- `Text`: joining, splitting, decimal rendering and prefixes of strings.
- `Hex`: `format(n, '02x')`, hex encoding and decoding of byte sequences.
- `Ethernet`: the layer-1 overhead, header lengths, payload lengths and the hex text of a frame whose payload is all 'a'.
- `PyMath`: truncating and ceiling division, as Python's `int()` and `math.ceil` compute them.
- `MacText`: the MAC address strings the scripts build.
- `Bpf`: the capture filter clauses.
- `Scapy`: the layer stacks the VLAN scripts build.
- `AddressConfig`: list-valued addresses (the DHCPv6 and SLAAC answers) reduced to the text of their first entry before any '/'.
- `Http`: the HTTP request-limit rule, the server's TCP port, the running-client test and the client polling loop.
- `Samples`: byte-per-interval to Mbit/s conversion and CSV lines.
- `Csv`: parsing and writing of the RSSI CSV files.
- `Wifi`: the interface search and the Available-device selection.

Several scripts carry copies of the same rule; the model defines each rule once:
- `Http.RequestLimitFor` also covers back2back/tcp_oneway_latency.py:200-208 and back2back/httpmulticlient.py:200-209.
- `AddressConfig.Normalise` also covers back2back/tcp.py:261-264 and back2back/httpmulticlient.py:300-303.
- `Samples.BytesPerSampleToMbitS` also covers wireless_endpoint/start_multiple_devices.py:347-353 and wireless_endpoint/ipv4_tcp_history.py:299-305.
- `Ipv4FrameBlasting.TriggerFilter` also covers the filter body of back2back/ipv4_vlan.py:163.
- `Wifi.FindWifiInterface` covers the interface search of the two throughput scripts, the influence script and rssi_vs_udp_loss.py.

Objects whose fields a script updates in place are classes with `modifies` clauses:
- `Ipv4All.UdpPortAllocator`;
- `Ipv4Multiflow.Example`;
- `RssiHighcharts.Categories`;
- `ServerOverview.ServerMetrics`;
- `UdpTrafficWithResolving.Device`.

Loops become methods, proved against a reference function and its lemmas. Python `float`
arithmetic is modelled on `real`, `int()` truncates toward zero, and `math.ceil` rounds up. A
script that raises an exception returns the `Wrappers` error naming that exception.

## Model

| member | source | states |
|---|---|---|
| Text.DecimalRoundTrip | back2back/tcp_oneway_latency.py:144 | `int(str(n)) == n`: the decimal text of a number parses back to it |
| Text.SplitJoin | back2back/ipv4_multicast.py:305 | splitting a join on the same one-character separator gives the fields back |
| Text.JoinSplit | back2back/ipv4_multicast.py:305 | joining the fields of a split restores the text |
| Text.JoinCount | wireless_endpoint/ipv4_tcp.py:305-308 | fields free of the separator character joined with it hold one occurrence fewer than there are fields |
| Text.BeforeFirst | back2back/ipv4.py:328-331 | the text before the first '/': a prefix of the input without '/', followed by '/' when the input has one, the whole input otherwise |
| Text.BeforeFirstIsFirstField | back2back/ipv4.py:331 | the text before the first '/' is `split('/')[0]` |
| PyMath.Trunc | wireless_endpoint/ipv4_all.py:158-161 | `int(x)` rounds toward zero: for x ≥ 0 it is the largest integer not above x, for x < 0 the least integer not below x |
| PyMath.Ceil | back2back/eth_vlan_only.py:157-159 | `math.ceil(x)` is the least integer not below x |
| PyMath.CeilMonotone | back2back/ipv4.py:136-150 | rounding up preserves order |
| PyMath.NonNeg | back2back/ipv4.py:197 | `'a' * n` has length max(0, n) |
| PyMath.RangeLength | back2back/ipv4.py:240-246 | `len(range(a, b))` is b - a when positive, else 0 |
| PyMath.TruncQuotientFits | wireless_endpoint/ipv4_all.py:242-243 | `int(d / g)` whole steps of g fit in d and one more does not |
| Hex.FormatExact | back2back/ipv4_multicast.py:306 | `format(n, '0Wx')` of a value below 16^W is exactly W lower-case hex digits that read back as n |
| Hex.Format2 | back2back/ipv4_multicast.py:306 | a byte in `02x` is its high nibble digit then its low nibble digit |
| Hex.Format4Split | back2back/ipv6_multicast_mldv2.py:303-305 | a 16-bit group in `04x` is the `02x` of its high byte followed by the `02x` of its low byte |
| Hex.FormatRoundTrip | back2back/ipv4_multicast.py:306 | every formatted number reads back as itself, whatever the padding |
| Hex.Encode | back2back/ipv4.py:211 | the frame text has two characters per byte, all lower-case hex digits |
| Hex.EncodeRoundTrip | back2back/ipv4.py:211 | decoding the frame text gives the frame bytes back |
| Hex.EncodeAt | back2back/example_generic.py:105 | characters 2i and 2i+1 of the frame text are the `02x` digits of byte i |
| MacText.MacRoundTrip | back2back/ipv4_multicast.py:306 | six octets give a well-formed 17-character colon-separated MAC text that reads back as those octets |
| MacText.MacSpelled | back2back/ipv6_multicast_mldv2.py:308 | a six-octet MAC text is the six `02x` groups joined by ':' |
| MacText.BbMac | server_management/connected_modems.py:26-32 | "00:bb" plus four random octets, zero-padded: a well-formed MAC reading back as 0x00, 0xbb and the random octets |
| Ethernet.InterframeGap | back2back/ipv4.py:105-150 | the gap is the least integer number of ns not below (frame_size + 24) × 8 × 1000 / throughput; a zero divisor raises ZeroDivisionError |
| Ethernet.StreamGap | back2back/ipv4.py:78-82 | a given throughput replaces the configured gap by `InterframeGap` of the frame size and that throughput (so at least the exact layer-1 frame time, ZeroDivisionError at zero); without it the configured gap is kept |
| Ethernet.InterframeGapClosed | back2back/ipv4.py:130-150 | the gap is the exact layer-1 frame time (frame + 4 FCS + 12 pause + 8 preamble/SFD bytes) rounded up |
| Ethernet.InterframeGapMonotone | back2back/ipv4.py:136-150 | bigger frames never get a shorter gap; faster links never a longer one |
| Ethernet.PayloadLength | back2back/ipv4.py:197 | the payload plus the headers make up the frame size; a frame smaller than its headers gets an empty payload |
| Ethernet.PayloadBytes | back2back/example_generic.py:81 | the payload is n bytes, each the ASCII code of 'a' |
| Ethernet.FrameTextShape | back2back/example_generic.py:81-105 | the frame text is twice the frame length, decodes to headers then payload, and spells every payload byte "61" |
| Bpf.Render | back2back/ipv4.py:223 | every filter primitive renders to a non-empty clause |
| Bpf.RenderAll | back2back/use_cases/udp_traffic_with_resolving.py:127-134 | one clause per primitive, in order |
| Bpf.ConjunctionAppend | back2back/use_cases/udp_traffic_with_resolving.py:127-134 | adding a primitive at the end appends " and " and its clause |
| Bpf.ConjunctionPrepend | back2back/ipv4_vlan.py:158-163 | adding a primitive at the front prefixes its clause and " and " |
| Scapy.WireSizeAppend | back2back/eth_vlan_only.py:213-224 | the bytes of a stacked frame are the sum of its parts |
| Scapy.WireSizeCons | back2back/ipv4_vlan.py:132-141 | a layer put in front of a stack adds its own size |
| AddressConfig.Normalise | back2back/ipv4.py:328-331 | a text is kept; a list whose first entry has '/' becomes the text before it; a first entry without '/' keeps the list; an empty list raises IndexError |
| AddressConfig.NormaliseListedAddress | back2back/ipv4.py:302-331 | a DHCPv6 or SLAAC answer whose first entry is "address/prefix" normalises to the bare address, and normalising again changes nothing |
| Http.RequestLimitFor | back2back/tcp.py:147-154 | the duration wins; the size applies only without a duration; neither raises ValueError |
| Http.ServerPort | back2back/tcp.py:123-127 | the configured TCP port, or the server's own when none is configured |
| Http.AnyRunning | back2back/multiple_clients.py:180-193 | true iff some client's status is outside {Error, Finished} |
| Http.MaxFromZeroIsMaximum | back2back/multiple_clients.py:136-137 | the running maximum from 0 bounds every value and is one of them, or 0 when all are at most 0 (also line 116) |
| Http.LongestDuration | back2back/use-cases/http_response_time_measurement.py:199-203 | the loop's running maximum equals the maximum-from-zero of the durations |
| Http.FirstStop | back2back/multiple_clients.py:165-197 | the first poll at which no client runs or the time limit has passed; none when no poll stops the loop |
| Http.WaitForClients | back2back/multiple_clients.py:165-197 | the loop makes one pass per poll up to and including the first stopping poll, and all of them when none stops it |
| Wifi.FirstNamed | demo_scripts/throughput_rssi_ssid_bssid_tcp.py:333-337 | the index of the first interface whose display name or name is the wanted one, none when there is none |
| Wifi.FirstWithSsid | demo_scripts/throughput_rssi_ssid_bssid_tcp.py:343-350 | the index of the first WiFi interface with a non-empty SSID, none when there is none |
| Wifi.FindWifiInterface | demo_scripts/throughput_rssi_ssid_bssid_udp.py:306-324 | the name match first, else the first WiFi interface with an SSID, else none |
| Wifi.FoundInterfaceQualifies | demo_scripts/influence_of_network_monitor_on_tcp_throughput.py:404-422 | the interface found is named as wanted or is a WiFi interface with an SSID; none only when neither exists |
| Wifi.SelectFirstAvailable | demo_scripts/rssi_vs_udp_loss.py:284-295 | the UUID of the first Available device, None when no device is Available |
| Wifi.SelectAllAvailable | wireless_endpoint/start_multiple_devices.py:291-308 | the append loop returns the UUIDs of the Available devices, in list order, as the recursive reference `AvailableUuids` defines them |
| Wifi.AvailableUuidsMembers | wireless_endpoint/start_multiple_devices.py:291-308 | a UUID is in the selection exactly when some device in the list is Available and carries that UUID |
| Wifi.FirstOfAllAvailable | demo_scripts/rssi_vs_udp_loss.py:284-295 | the first UUID of the full selection is the one the single selection picks; the full selection is empty iff there is none |
| Samples.BytesPerSampleToMbitS | wireless_endpoint/start_multiple_devices.py:347-353 | n × 8 × 1e9 / (1e6 × duration) Mbit/s; 0 bytes give 0; a zero duration raises ZeroDivisionError |
| Samples.MbitSLinear | wireless_endpoint/ipv4_tcp_history.py:299-305 | twice the bytes in the same sample is twice the rate |
| Samples.CsvLine | wireless_endpoint/ipv4_tcp.py:305-308 | uuid, name and the cells joined by ", ", ending in a newline |
| Samples.CsvLineFields | wireless_endpoint/ipv4_tcp_history.py:312-315 | with no comma inside a field, the line has exactly 2 + len(items) comma-separated fields |
| Qed.SumZeros | wireless_endpoint/ipv4_gaming_with_qed.py:97-98 | the zero buckets of an empty interval add up to 0 |
| Qed.Summarise | wireless_endpoint/ipv4_gaming_with_qed.py:88-112 | an interval without packets gets bucket_count zero buckets and zero below/in/above counts; otherwise the reported counts with in-bucket = sum(buckets); no cumulative list yet |
| Qed.GetBuckets | wireless_endpoint/ipv4_gaming_with_qed.py:82-113 | one histogram per interval, in interval order, each the summary of its interval |
| Qed.CalculateCumulativePercentages | wireless_endpoint/ipv4_gaming_with_qed.py:563-571 | one entry per bucket, entry i = (below + buckets[0..i]) × 100 / total; a zero total with buckets raises ZeroDivisionError |
| Qed.CumulativeNondecreasing | wireless_endpoint/ipv4_gaming_with_qed.py:563-571 | with non-negative buckets and a positive total the cumulative percentages never decrease |
| Qed.CumulativeLast | wireless_endpoint/ipv4_gaming_with_qed.py:563-571 | the last entry is the share of packets not above the range; 100 when none is above |
| Qed.WithCumulative | wireless_endpoint/ipv4_gaming_with_qed.py:574-583 | only 'cumulative_buckets' may change; it is added (as the cumulative percentages) only when the interval packet count is non-zero, else the histogram is unchanged |
| Qed.MakeCumulative | wireless_endpoint/ipv4_gaming_with_qed.py:574-583 | the in-place update gives the histogram `WithCumulative` describes |
| Qed.FirstReaching | wireless_endpoint/ipv4_gaming_with_qed.py:551-556 | the least index whose cumulative percentage is at least the percentile; none exactly when the percentile exceeds every entry |
| Qed.Locate | wireless_endpoint/ipv4_gaming_with_qed.py:545-560 | BELOW (index -1) iff percent <= below; otherwise INSIDE at the least idx with percent <= cumulative[idx]; ABOVE (index 0) iff percent exceeds below and every entry |
| Qed.GetBucketIndex | wireless_endpoint/ipv4_gaming_with_qed.py:545-560 | the early-returning scan returns the classification `Locate` states |
| Qed.BelowComparesPacketCount | wireless_endpoint/ipv4_gaming_with_qed.py:597-605 | 100 packets below of 200 (a 50 % share) put the 75th percentile BELOW because 75 <= 100; the corrected classification gives INSIDE bucket 0 (also line 547) |
| Qed.LocateCorrectedIsFirstShare | wireless_endpoint/ipv4_gaming_with_qed.py:545-560 | the corrected classification is the first position reaching the percentile in the share list "below, bucket 0, bucket 1, ...", BELOW for position 0 and bucket k for position k + 1 |
| Qed.Tracked | wireless_endpoint/ipv4_gaming_with_qed.py:594-595 | every histogram kept has a non-empty cumulative list, and none is added: no more than the input holds |
| Qed.TrackedMembers | wireless_endpoint/ipv4_gaming_with_qed.py:594-595 | a histogram is kept exactly when it is in the input and has a non-empty cumulative list |
| Qed.TrackedAppend | wireless_endpoint/ipv4_gaming_with_qed.py:594-595 | the filter keeps the input's order: filtering a concatenation gives the filtered parts in the same order |
| Qed.Latencies | wireless_endpoint/ipv4_gaming_with_qed.py:592-614 | the inner loop yields one point per tracked histogram, as `LatencySeries` defines |
| Qed.CalculateQed | wireless_endpoint/ipv4_gaming_with_qed.py:586-620 | every histogram gets its cumulative list first; then one entry per percentile, in input order, each carrying the percentile and its latency series |
| Qed.LatencySeriesTracked | wireless_endpoint/ipv4_gaming_with_qed.py:592-614 | each percentile's series has one point per tracked histogram, in histogram order |
| Qed.TrackedAfterMakeCumulative | wireless_endpoint/ipv4_gaming_with_qed.py:574-583 | a histogram contributes after `make_cumulative` exactly when its interval had packets and at least one bucket (also lines 594-595) |
| Qed.InsideLatencyInRange | wireless_endpoint/ipv4_gaming_with_qed.py:606-609 | an INSIDE latency is range_min + index × (range_max − range_min)/len(cumulative) in ms, inside [range_min, range_max) / 1e6 |
| Qed.BucketLatencyInRange | wireless_endpoint/ipv4_gaming_with_qed.py:607-609 | the lower edge of every bucket of a non-empty range lies in the range, below its upper end |
| Qed.OutsideHasNoLatency | wireless_endpoint/ipv4_gaming_with_qed.py:604-612 | BELOW and ABOVE plot no latency (None) |
| Ipv4Multicast.ParseAll | back2back/ipv4_multicast.py:305 | `[int(i) for i in parts]` succeeds iff every part is a number, giving one value per part; otherwise ValueError |
| Ipv4Multicast.ConvertMulticastIpToMac | back2back/ipv4_multicast.py:304-306 | a non-numeric part raises ValueError, fewer than four parts IndexError; every result starts with "01:00:5e:" |
| Ipv4Multicast.MacFromOctets | back2back/ipv4_multicast.py:306 | the formatted text is a well-formed 17-character MAC with octets 01, 00, 5e, b1 & 0x7f, b2, b3 |
| Ipv4Multicast.MulticastMac | back2back/ipv4_multicast.py:304-306 | for a dotted quad of octets: six two-digit groups, octets 01 00 5e (d1 & 0x7f) d2 d3, the fourth below 0x80, and as a 48-bit number 01-00-5E-00-00-00 plus the low 23 bits of the group address (section 6.4 of RFC 1112) |
| Ipv4Multicast.ExampleNumbers | back2back/ipv4_multicast.py:305 | "224.128.0.1" parses to [224, 128, 0, 1] |
| Ipv4Multicast.DocumentedExample | back2back/ipv4_multicast.py:300-306 | the commented example 224.128.0.1 gives "01:00:5e:00:00:01", colon-separated, not the dashed text of the comment |
| Ipv4Multicast.GenerateFrameString | back2back/ipv4_multicast.py:279-298 | two hex digits per frame byte, decoding to the headers followed by frame_size − 42 'a' bytes |
| Ipv4Multicast.TriggerFilter | back2back/ipv4_multicast.py:141 | exactly the conjunction "ip dst <ip> and udp dst port <port>" |
| Ipv6Multicast.GroupTexts | back2back/ipv6_multicast_mldv2.py:301 | one four-digit `04x` text per 16-bit group |
| Ipv6Multicast.AddressBytes | back2back/ipv6_multicast_mldv2.py:302-305 | the digit list has 16 bytes |
| Ipv6Multicast.ExplodedParts | back2back/ipv6_multicast_mldv2.py:301-303 | splitting the exploded text at ':' gives the eight four-digit group texts |
| Ipv6Multicast.GroupDigits | back2back/ipv6_multicast_mldv2.py:304-305 | the first two digits of a group read as its high byte, the last two as its low byte |
| Ipv6Multicast.AddressBytesPrefix | back2back/ipv6_multicast_mldv2.py:303-305 | each group appends its high byte then its low byte to the digit list |
| Ipv6Multicast.ConvertMulticastIpToMac | back2back/ipv6_multicast_mldv2.py:300-308 | the appending loop and format give "33:33:" and octets 12 to 15 of the address |
| Ipv6Multicast.MulticastMacShape | back2back/ipv6_multicast_mldv2.py:308 | a well-formed 17-character MAC starting "33:33:" whose last four octets are bytes 12..15 of the address (section 7 of RFC 2464) |
| Ipv6Multicast.SameMacIffSameLow32 | back2back/ipv6_multicast_mldv2.py:308 | two groups get the same MAC exactly when their last 32 bits agree |
| Ipv6Multicast.DocumentedExample | back2back/ipv6_multicast_mldv2.py:296-308 | ff05:0000:0000:0000:0000:0000:0002:0001 gives "33:33:00:02:00:01" |
| Ipv6Multicast.GenerateFrameString | back2back/ipv6_multicast_mldv2.py:275-294 | as written: two hex digits per byte, decoding to the headers then frame_size − 42 'a' bytes (the IPv4 header length) |
| Ipv6Multicast.FrameTooLong | back2back/ipv6_multicast_mldv2.py:276-280 | with the 62 header bytes of Ethernet/IPv6/UDP the frame sent is frame_size + 20 bytes |
| Ipv6Multicast.GenerateFrameStringCorrected | back2back/ipv6_multicast_mldv2.py:276-280 | subtracting the 40-byte IPv6 header, the frame is exactly frame_size bytes and starts with the headers |
| Ipv6Multicast.TriggerFilter | back2back/ipv6_multicast_mldv2.py:135 | exactly the conjunction "ip6 dst <ip> and udp dst port <port>" |
| Ipv4FrameBlasting.ProgressPolls | back2back/ipv4.py:240-246 | the number of polls is the whole number of seconds the stream transmits: n ≤ gap × frames / 1e9 < n + 1 |
| Ipv4FrameBlasting.TriggerFilter | back2back/ipv4.py:223 | exactly "ip dst <dst> and udp port 4096" |
| EthVlanOnly.GetVlans | back2back/eth_vlan_only.py:162-170 | [] for a missing key or None, [n] for an int n, the list unchanged otherwise |
| EthVlanOnly.L2HeaderLength | back2back/eth_vlan_only.py:174-177 | 14 + 4 × the number of port 1 VLANs |
| EthVlanOnly.TagLayers | back2back/eth_vlan_only.py:221-222 | one 802.1Q tag per VLAN, in list order |
| EthVlanOnly.FrameLayers | back2back/eth_vlan_only.py:213-224 | Ethernet first, then one tag per port 1 VLAN (the first outermost), then a payload of frame_size − header bytes |
| EthVlanOnly.TagLayersSize | back2back/eth_vlan_only.py:175-177 | each tag adds 4 bytes on the wire (also lines 221-222) |
| EthVlanOnly.FrameSize | back2back/eth_vlan_only.py:173-224 | the header length computed is what the layers occupy, so the frame is exactly frame_size bytes (just the headers when frame_size is smaller) |
| EthVlanOnly.HostsFilter | back2back/eth_vlan_only.py:243-244 | exactly "ether host S and ether host D" |
| EthVlanOnly.VlanClause | back2back/eth_vlan_only.py:247 | appending " and vlan V" adds the VLAN primitive to the conjunction |
| EthVlanOnly.TriggerFilter | back2back/eth_vlan_only.py:243-249 | the hosts filter, plus the vlan clause of port 2's first VLAN only when port 1 has VLANs; port 1 tagged and port 2 untagged raises IndexError |
| EthVlanOnly.ProvisionPort | back2back/eth_vlan_only.py:315-324 | the interface and MAC as configured and one VLAN tag per `get_vlans` entry, in order |
| EthVlanOnly.FrameMatchesProvisioning | back2back/eth_vlan_only.py:243-249 | the frame's tags are the tags provisioned on port 1, in order; with equal VLAN lists on both ports the filter names the frame's outer tag (also lines 221-224, 321-324) |
| Ipv4Vlan.TxLayers | back2back/ipv4_vlan.py:132-141 | a Dot1Q layer sits between Ethernet and IPv4 exactly when the TX config has a 'vlan' key; otherwise the untagged frame; the payload is 470 bytes either way |
| Ipv4Vlan.TxFrameSize | back2back/ipv4_vlan.py:111-141 | the untagged frame is exactly 512 bytes (a 470-byte payload), the tagged one 4 bytes longer |
| Ipv4Vlan.RxFilter | back2back/ipv4_vlan.py:158-163 | the conjunction of the RX VLAN clause (only when the RX config has 'vlan'), "ip dst <dst>" and "udp port 4096" |
| Ipv4Vlan.RxFilterPrefix | back2back/ipv4_vlan.py:158-163 | both branches share the body; the VLAN branch only adds the "vlan <id> and " prefix |
| Ipv4Vlan.ProvisionVlans | back2back/ipv4_vlan.py:249-252 | one VLAN layer with the configured id exactly when the key is present, none otherwise |
| Ipv4Vlan.ZeroVlanIsProvisioned | back2back/ipv4_vlan.py:249-252 | presence, not truthiness: VLAN 0 is provisioned |
| Ipv4Vlan.TagMatchesProvisioning | back2back/ipv4_vlan.py:132-163 | with one configuration on both sides, the frame's tag is the provisioned VLAN and the filter's first clause looks for it (also lines 249-252) |
| ExampleGeneric.CreatePort | back2back/example_generic.py:7-33 | IPv4 exactly when ip_mode is "ipv4"; DHCP when asked; otherwise static IPv4 with netmask and gateway, or only the manual IPv6 address |
| ExampleGeneric.FrameLength | back2back/example_generic.py:80-95 | the frame is `length` bytes, or the 42 header bytes when `length` is smaller |
| ExampleGeneric.FrameHex | back2back/example_generic.py:97-106 | two lower-case hex digits per frame byte |
| ExampleGeneric.FrameHexShape | back2back/example_generic.py:80-106 | with 42 header bytes and length ≥ 42: exactly 2 × length hex digits decoding to the headers then the 'a' payload |
| ExampleGeneric.TriggerFilter | back2back/example_generic.py:75 | exactly "ip src S and ip dst D and udp and src port P and dst port Q" |
| ExampleGeneric.CreateFlow | back2back/example_generic.py:35-75 | the stream is on the source port with the frame count and gap given, the trigger on the destination port; the frame starts with the source MAC header |
| ExampleGeneric.TriggerMatchesFrame | back2back/example_generic.py:42-50 | the trigger filters on exactly the IPv4 addresses and UDP ports the stream's frame carries (also line 75) |
| Ipv4All.NextPort | wireless_endpoint/ipv4_all.py:151-155 | the counter after handing out p: one more, wrapping from 65535 back to 4096, always in [4096, 65535] |
| Ipv4All.PortAfter | wireless_endpoint/ipv4_all.py:151-155 | after any number of hand-outs the counter stays in [4096, 65535] |
| Ipv4All.PortAfterCycles | wireless_endpoint/ipv4_all.py:151-155 | k hand-outs walk the range 4096..65535 cyclically: 4096 + (p − 4096 + k) mod 61440 |
| Ipv4All.PortsDistinctWithinCycle | wireless_endpoint/ipv4_all.py:151-155 | ports handed out within one cycle of 61440 are pairwise distinct |
| Ipv4All.UdpPortAllocator.constructor | wireless_endpoint/ipv4_all.py:139 | the shared counter starts at 4096 |
| Ipv4All.UdpPortAllocator.FreeUdp | wireless_endpoint/ipv4_all.py:143-156 | returns the counter, in [4096, 65535], and advances it with the wrap after 65535 |
| Ipv4All.SpeedToIfg | wireless_endpoint/ipv4_all.py:158-161 | the truncated gap n satisfies n × bit_speed ≤ 8e9 × frame_size < (n + 1) × bit_speed; a zero speed raises ZeroDivisionError |
| Ipv4All.SpeedToIfgReachesRate | wireless_endpoint/ipv4_all.py:158-161 | truncation only makes frames leave faster: the rate reached is at least bit_speed |
| Ipv4All.FrameCount | wireless_endpoint/ipv4_all.py:240-243 | `int(duration_s × (bit_speed / 8) / frame_size)`: the frames counted fit within the bits the duration allows and one frame more would not; a zero frame size raises ZeroDivisionError (also lines 278-281) |
| Ipv4All.Classify | wireless_endpoint/ipv4_all.py:363-375 | "tcp" is TCP; "udp" with direction "up"/"down" is UDP up/down; "udp" without a direction raises KeyError; anything else is skipped |
| Ipv4All.UdpStreamSetup | wireless_endpoint/ipv4_all.py:271-281 | after taking its port, a UDP flow computes the gap and then the frame count with the defaults 1e6 bit/s, 1024 bytes and 1e9 ns; it raises ZeroDivisionError exactly when the bit speed or the frame size is zero (also lines 236-243) |
| Ipv4All.FlowsErrorPersists | wireless_endpoint/ipv4_all.py:363-375 | once a configuration raises, the run fails with that error whatever follows |
| Ipv4All.CreateFlows | wireless_endpoint/ipv4_all.py:362-375 | the dispatch loop creates the flows `FlowsFrom` describes, raising the first KeyError of a missing direction or ZeroDivisionError of a UDP constructor, and on success leaves the shared counter advanced by the number of UDP flows |
| Ipv4All.FlowsAreRecognised | wireless_endpoint/ipv4_all.py:363-375 | every flow was built from a recognised configuration of its own kind, never more flows than configurations |
| Ipv4All.FlowsOkIffEveryConfigBuilds | wireless_endpoint/ipv4_all.py:362-375 | the dispatch succeeds if and only if no "udp" entry lacks a direction and no UDP flow has a zero bit speed or frame size |
| Ipv4All.FlowsAlignedWhenAllRecognised | wireless_endpoint/ipv4_all.py:363-375 | with every configuration recognised and every UDP one buildable, flow i was built from configuration i (also lines 407-410) |
| Ipv4All.UdpPortsAppend | wireless_endpoint/ipv4_all.py:211 | a new flow adds its UDP port, if it has one, at the end (also line 266) |
| Ipv4All.SharedCounter | wireless_endpoint/ipv4_all.py:151-152 | up and down flows draw from the one counter: the n-th UDP flow gets the counter after n hand-outs (also lines 211, 266) |
| Ipv4All.Report | wireless_endpoint/ipv4_all.py:407-410 | `zip`: as many results as the shorter list, result i pairing configuration i with flow i |
| Ipv4All.SkippedConfigMisaligns | wireless_endpoint/ipv4_all.py:363-376 | a skipped configuration labels the result at its index with a flow built from another configuration (also lines 407-410) |
| Ipv4All.Earliest | wireless_endpoint/ipv4_all.py:110-114 | the running minimum from +inf stays +inf exactly when there are no sessions (also line 101) |
| Ipv4All.EarliestIsMinimum | wireless_endpoint/ipv4_all.py:110-114 | the earliest moment is no later than any session's first timestamps and is one of them |
| Ipv4All.Latest | wireless_endpoint/ipv4_all.py:115-119 | the running maximum from -inf stays -inf exactly when there are no sessions (also line 102) |
| Ipv4All.LatestIsMaximum | wireless_endpoint/ipv4_all.py:115-119 | the latest moment is no earlier than any session's last timestamps and is one of them |
| Ipv4All.TcpResult | wireless_endpoint/ipv4_all.py:98-124 | no sessions leave all fields 0; otherwise bytecount sums max(rx, tx), duration = latest − earliest, bitspeed × duration = 8e9 × bytecount; a zero span raises ZeroDivisionError |
| Ipv4All.GatherTcpResults | wireless_endpoint/ipv4_all.py:98-124 | the accumulating loop computes `TcpResult` |
| Ipv4All.UdpResult | wireless_endpoint/ipv4_all.py:184-198 | bytecount as received; only when positive, duration = min(rx span, tx span) and bitspeed × duration = 8e9 × bytecount, a zero span raising ZeroDivisionError; otherwise duration and bitspeed stay 0 |
| Ipv4All.UdpPayloadLength | wireless_endpoint/ipv4_all.py:269-271 | 982 bytes by default; a frame size of at least 42 leaves that size minus the 42 bytes of MAC, IPv4 and UDP headers, a smaller one an empty payload (also lines 140, 215, 229) |
| Ipv4All.UpstreamFilter | wireless_endpoint/ipv4_all.py:289 | exactly "ip and udp dst port <port>" |
| Ipv4All.TriggerDuration | wireless_endpoint/ipv4_all.py:247-250 | `int(1e9 × (duration_s + 2))`: two seconds beyond the stream, truncated |
| Ipv4All.SamplingBufferLength | wireless_endpoint/ipv4_all.py:244 | `int(duration_s) + 20` history samples (also line 290) |
| UdpTrafficWithResolving.RandomMacShape | back2back/use_cases/udp_traffic_with_resolving.py:33-37 | the generated MAC is a well-formed 17-character address with octets 00, bb, bb and the three random bytes |
| UdpTrafficWithResolving.DeviceVlans | back2back/use_cases/udp_traffic_with_resolving.py:40-45 | the 'vlans' list, then a truthy single 'vlan' appended after it; a missing or zero 'vlan' adds nothing |
| UdpTrafficWithResolving.Device.constructor | back2back/use_cases/udp_traffic_with_resolving.py:30-54 | the configured MAC or the random one, the VLAN stack, the static addressing, DHCP and NAT flags, and no port yet |
| UdpTrafficWithResolving.Device.CreateOnServer | back2back/use_cases/udp_traffic_with_resolving.py:65-86 | records the new port; with DHCP the leased address, netmask and gateway replace the configured ones, otherwise they stay; nothing else changes |
| UdpTrafficWithResolving.Device.Release | back2back/use_cases/udp_traffic_with_resolving.py:436-440 | the port, if any, is returned for destruction and forgotten; the rest of the device is unchanged |
| UdpTrafficWithResolving.FrameCount | back2back/use_cases/udp_traffic_with_resolving.py:195-197 | the given number of frames, else ceil(duration_s × 1e9 / gap_ns): the least count whose intervals cover the duration; a zero gap raises ZeroDivisionError |
| UdpTrafficWithResolving.FramesCoverDuration | back2back/use_cases/udp_traffic_with_resolving.py:301-305 | a flow sized from a duration lasts (get_duration, with no initial wait) at least that duration and less than one gap longer (also lines 195-197) |
| UdpTrafficWithResolving.VlanPrimitives | back2back/use_cases/udp_traffic_with_resolving.py:277-279 | one "vlan V" clause per VLAN, in order |
| UdpTrafficWithResolving.ReceiveFilter | back2back/use_cases/udp_traffic_with_resolving.py:277-284 | the append loop builds the conjunction of the VLAN clauses, "ip dst X" and "udp port P" |
| UdpTrafficWithResolving.ReceiveFilterStartsWithVlans | back2back/use_cases/udp_traffic_with_resolving.py:127-134 | with VLANs, the filter starts with the outermost VLAN's clause (also lines 277-284) |
| UdpTrafficWithResolving.CreateBetween | back2back/use_cases/udp_traffic_with_resolving.py:184-287 | a flow is created exactly when the frame count is computable and at most one device is behind NAT; flow k uses UDP port 4096 + k; two NAT devices raise RuntimeError before a stream exists; a NAT destination is addressed at the resolved endpoint while the trigger filters on the device address; payload frame_size − 42; the source's VLAN tags |
| UdpTrafficWithResolving.Loss | back2back/use_cases/udp_traffic_with_resolving.py:343-345 | lost + received = sent, a percentage in [0, 100] when no more are received than sent, 0 when all arrive; tx = 0 raises ZeroDivisionError |
| UdpTrafficWithResolving.PlanFlows | back2back/use_cases/udp_traffic_with_resolving.py:456-478 | "Downstream_1".."Downstream_n" from the WAN device first, then "Upstream_1".."Upstream_m" from the CPE device, each numbered from 1 |
| UdpTrafficWithResolving.MaxOf | back2back/use_cases/udp_traffic_with_resolving.py:417 | `max` of a non-empty list bounds every entry and is one of them |
| UdpTrafficWithResolving.TrafficTime | back2back/use_cases/udp_traffic_with_resolving.py:406-426 | the longest flow plus the extra time (2 s when not given); no flows raise ValueError |
| Ipv4Multiflow.FlowFilterIsConjunction | back2back/ipv4_multiflow.py:338 | "ip dst <dst> and udp port <udp_dst>" is the conjunction of the two clauses |
| Ipv4Multiflow.SourcesAppend | back2back/ipv4_multiflow.py:112-114 | appending a flow adds its source port to the set |
| Ipv4Multiflow.SourcesMembers | back2back/ipv4_multiflow.py:97 | a port is transmitting exactly when some flow starts there (also line 114) |
| Ipv4Multiflow.Example.constructor | back2back/ipv4_multiflow.py:74-78 | both UDP counters start at 4096 and no port is set |
| Ipv4Multiflow.Example.CreateFlow | back2back/ipv4_multiflow.py:266-344 | the flow uses the current counters, the filter the pre-increment destination port; both counters then advance by one |
| Ipv4Multiflow.Example.CreateFlows | back2back/ipv4_multiflow.py:95-121 | all port 1 → port 2 flows first, then port 2 → port 1; flow k is the k-th expected flow; the transmitting set is the flows' sources; four results per flow registered |
| Ipv4Multiflow.Example.Cleanup | back2back/ipv4_multiflow.py:203-213 | both set ports are destroyed; port 1 is reset to None, port 2 stays set |
| Ipv4Multiflow.FlowPorts | back2back/ipv4_multiflow.py:77-78 | flow k of a fresh run uses UDP source and destination port 4096 + k, so ports never repeat, and downstream flows precede upstream ones (also lines 343-344) |
| Ipv4Multiflow.TransmittingPorts | back2back/ipv4_multiflow.py:97-114 | the set holds port 1 iff there are downstream flows and port 2 iff there are upstream flows |
| Ipv4Multiflow.PollIterations | back2back/ipv4_multiflow.py:144-153 | `int(duration_s + 1) + 1` iterations: the whole seconds of traffic plus two |
| TcpOnewayLatency.ParseAll | back2back/tcp_oneway_latency.py:144 | the list comprehension succeeds iff every part is an integer, one value per part; otherwise ValueError |
| TcpOnewayLatency.TupleLessMeaning | back2back/tcp_oneway_latency.py:147 | Python's tuple `<`: a proper prefix is smaller, otherwise the first differing component decides |
| TcpOnewayLatency.CheckServerVersion | back2back/tcp_oneway_latency.py:142-152 | a non-integer component raises ValueError; a component tuple below (2, 14, 0) raises RuntimeError; any other passes |
| TcpOnewayLatency.VersionRoundTrip | back2back/tcp_oneway_latency.py:143-144 | the components of a reported version text read back as themselves |
| TcpOnewayLatency.VersionExamples | back2back/tcp_oneway_latency.py:144-147 | numbers, not texts, are compared: "2.9.0" is refused, "2.100.0" accepted, the two-part "2.14" refused, "2.14.0" accepted |
| TcpOnewayLatency.MaxDurationSeconds | back2back/tcp_oneway_latency.py:125-130 | a missing or zero max_duration gives 1 s; otherwise `int(max_duration) / 1e9` seconds |
| TcpOnewayLatency.SubNanosecondMaximum | back2back/tcp_oneway_latency.py:128-130 | a configured maximum below one nanosecond is truthy yet truncates to no time at all |
| TcpOnewayLatency.TxRxSessions | back2back/tcp_oneway_latency.py:276-281 | GET: tx is the server session and rx the client session; PUT swaps them; the two always differ |
| TcpOnewayLatency.PollUntilFinished | back2back/tcp_oneway_latency.py:241-244 | the loop passes every check until the first at which the time is up AND the request has finished |
| Tcp.ProcessResults | back2back/tcp.py:175-221 | as written: GET reports the client session's counters; any other method leaves them 0 and raises AttributeError at `avg_throughput.toString()` |
| Tcp.ProcessResultsCorrected | back2back/tcp.py:181-209 | with the second branch testing PUT: GET reports the client session, PUT the server session, in the list order [size, duration, tx, rx, avg, min_cwnd, max_cwnd, status] (also lines 220-221) |
| Tcp.PutRequestFails | back2back/tcp.py:181-215 | a PUT fails as written but reports the server session once corrected; GET is unaffected |
| HttpMultiClient.Configure | back2back/httpmulticlient.py:161-209 | the server's port (its default when None), the totals as configured, and each session bounded by duration before size; neither raises ValueError |
| HttpMultiClient.PollIterations | back2back/httpmulticlient.py:216-225 | exactly 10 one-second polls |
| HttpMultiClient.MakeReport | back2back/httpmulticlient.py:251-260 | the list carries duration, session duration, session size, total and concurrent limits, tx, rx, tx and rx speed and status, as configured and measured |
| HttpMultiClient.ReportMatchesSetup | back2back/httpmulticlient.py:251-260 | the returned list echoes the setup the client ran with: its duration and limits, and session bounds from which the request-limit rule picks the applied limit (also lines 200-209) |
| MultipleClients.ParseConfigs | back2back/multiple_clients.py:71-79 | the constructor raises the parser's error exactly when some method name does not parse, the first such error; otherwise one configuration per http_clients entry, in input order, with the parsed method and the duration |
| MultipleClients.DurationsSeconds | back2back/multiple_clients.py:136-137 | each client's duration in seconds, in order |
| MultipleClients.MaxDuration | back2back/multiple_clients.py:136-137 | the longest client duration in seconds, bounding every client's, 0 with no clients (also line 116) |
| MultipleClients.WaitForAll | back2back/multiple_clients.py:165-197 | the loop polls until no client runs or 2 + max_duration seconds have passed, whichever comes first |
| MultipleClients.MethodName | back2back/multiple_clients.py:242-246 | "GET" and "PUT" for those methods; any other raises KeyError |
| MultipleClients.ProcessHttpClient | back2back/multiple_clients.py:237-293 | [tx, rx, bitrate, min_cwnd, max_cwnd, status] of the client session for GET and PUT; other methods raise KeyError |
| HttpResponseTime.EndSeconds | back2back/use-cases/http_response_time_measurement.py:201 | each client's end, initial wait plus duration, in seconds, in configuration order |
| HttpResponseTime.TrackedIndices | back2back/use-cases/http_response_time_measurement.py:209-210 | only clients that are not load are tracked, in configuration order |
| HttpResponseTime.TrackedComplete | back2back/use-cases/http_response_time_measurement.py:209-210 | every client that is not load is tracked |
| HttpResponseTime.SetupClients | back2back/use-cases/http_response_time_measurement.py:178-210 | max_duration is the largest end over all clients, load included (0 without clients); the tracked list is the non-load clients |
| HttpResponseTime.TrackedStatuses | back2back/use-cases/http_response_time_measurement.py:243-248 | one poll reads the status of exactly the tracked clients, in their order |
| HttpResponseTime.LoadClientsIgnored | back2back/use-cases/http_response_time_measurement.py:236-252 | once every non-load client has finished or failed, the waiting loop stops, however many load clients still run |
| HttpResponseTime.ResponseTimeMs | back2back/use-cases/http_response_time_measurement.py:350 | the delay from the first transmitted to the first received byte, in milliseconds; never negative when reception is not earlier |
| HttpResponseTime.MinimumIsLeast | back2back/use-cases/http_response_time_measurement.py:277 | `min` returns one of the response times and none is smaller |
| HttpResponseTime.SumAtLeast | back2back/use-cases/http_response_time_measurement.py:277-278 | values all at least m sum to at least m times their count, so the mean is at least the minimum |
| HttpResponseTime.Summary | back2back/use-cases/http_response_time_measurement.py:277-278 | no tracked client raises ValueError; otherwise the minimum is one of the response times and bounds every one of them and the mean, and the mean times the count is the sum |
| HttpResponseTime.ProfileFor | back2back/use-cases/http_response_time_measurement.py:430-439 | the first argument picks upload, upload_with_load or download; any other name picks download_with_load; no argument raises IndexError |
| StartMultipleDevices.MeetingPointAddress | wireless_endpoint/start_multiple_devices.py:70-73 | a configured meeting point address is used; a missing or None one falls back to the server address |
| StartMultipleDevices.ConfiguredUuids | wireless_endpoint/start_multiple_devices.py:75-76 | the list under 'wireless_endpoint_uuids', or empty when the key is missing |
| StartMultipleDevices.ConfiguredListIgnored | wireless_endpoint/start_multiple_devices.py:75-76 | the configuration's 'wireless_endpoint_uuid_list' is never read, so the list starts empty (also line 39) |
| StartMultipleDevices.Truncate | wireless_endpoint/start_multiple_devices.py:177-179 | a prefix of the list, of length at most n, the whole list when it is not longer |
| StartMultipleDevices.ChooseDevices | wireless_endpoint/start_multiple_devices.py:291-308 | the configured UUIDs, or the Available devices when none are configured, never more than the licence allows (also lines 173-179) |
| StartMultipleDevices.CountRunning | wireless_endpoint/start_multiple_devices.py:243-257 | at most one per device |
| StartMultipleDevices.CountRunningZero | wireless_endpoint/start_multiple_devices.py:246-257 | the count is zero exactly when every device is Reserved or Available |
| StartMultipleDevices.PollDevices | wireless_endpoint/start_multiple_devices.py:242-257 | one pass counts the devices neither Reserved nor Available, and the loop goes on exactly when there are some |
| StartMultipleDevices.CollectResult | wireless_endpoint/start_multiple_devices.py:310-326 | the session's throughput; the first timestamp is the earlier of rx and tx first, the last the later of rx and tx last |
| StartMultipleDevices.CollectResults | wireless_endpoint/start_multiple_devices.py:328-346 | one result per client identifier, in order, and a total throughput that is the sum of theirs |
| RssiHighcharts.FirstNamed | demo_scripts/plotting/rssi_plot_highcharts.py:100-104 | the first position whose category has the name; none when no category has it |
| RssiHighcharts.AppendSsidBssid | demo_scripts/plotting/rssi_plot_highcharts.py:96-106 | the all-zero BSSID text counts as "No Signal"; a known name returns its first position and changes nothing; a new one is appended as [old length, name] and the old length returned |
| RssiHighcharts.AppendKeepsCategories | demo_scripts/plotting/rssi_plot_highcharts.py:96-106 | the returned index names the text, earlier categories are kept, and self-indexing and distinct names are preserved |
| RssiHighcharts.Categories.constructor | demo_scripts/plotting/rssi_plot_highcharts.py:112 | the list starts as [[0, "No Signal"]], indexed and free of duplicates |
| RssiHighcharts.Categories.Append | demo_scripts/plotting/rssi_plot_highcharts.py:96-106 | the counter loop over the list in place leaves the list and index that AppendSsidBssid specifies |
| RssiHighcharts.ChartAfterPoints | demo_scripts/plotting/rssi_plot_highcharts.py:108-137 | after n rows each series has a point per data row at that row's time (columns 4 and 5 for throughput and RSSI), each SSID/BSSID point indexes the category named by that row, and the categories start with "No Signal", stay indexed and distinct |
| RssiHighcharts.ReadFromCsv | demo_scripts/plotting/rssi_plot_highcharts.py:108-137 | a data row too short for column 7 raises IndexError; otherwise the result is the chart after every row, the header skipped |
| RssiHighcharts.ReadRow | demo_scripts/plotting/rssi_plot_highcharts.py:121-126 | one data row adds one point per series and its name to the categories in place |
| RssiHighcharts.CategoryLabels | demo_scripts/plotting/rssi_plot_highcharts.py:17-20 | the axis labels are the category names in list order, so a category's recorded index labels its own name |
| ThroughputRssiTcp.SampleCount | demo_scripts/throughput_rssi_ssid_bssid_tcp.py:115-120 | the history length is twice the number of sample intervals in the test, truncated |
| ThroughputRssiTcp.ResultRow | demo_scripts/throughput_rssi_ssid_bssid_tcp.py:262-306 | columns timestamp, throughput, SSID, BSSID, RSSI in that order; the throughput is the truncated HTTP rate or 0 without an HTTP interval; the WiFi fields come from the interface `find_wifi_interface` picks, or are "Unknown", "Unknown", -127 without one |
| ThroughputRssiTcp.CollectResults | demo_scripts/throughput_rssi_ssid_bssid_tcp.py:259-306 | one result row per network-info interval, in interval order |
| ThroughputRssiTcp.TimestampFirstKeepsColumns | demo_scripts/throughput_rssi_ssid_bssid_tcp.py:377-384 | moving 'timestamp' to the front leaves the column order as inserted (also line 423) |
| ThroughputRssiTcp.RowsWritable | demo_scripts/throughput_rssi_ssid_bssid_tcp.py:377-409 | every row `run` returns can be written: each has every column and an integer timestamp (also line 423) |
| ThroughputRssiTcp.RowWritable | demo_scripts/throughput_rssi_ssid_bssid_tcp.py:391-409 | one row with every column and an integer timestamp formats without error |
| ThroughputRssiUdp.InterframeGap | demo_scripts/throughput_rssi_ssid_bssid_udp.py:83 | the gap is 1e9 / frames_per_second truncated; zero frames per second raises ZeroDivisionError |
| ThroughputRssiUdp.NumberOfFrames | demo_scripts/throughput_rssi_ssid_bssid_udp.py:138 | the frame count is duration / gap truncated; a zero gap raises ZeroDivisionError |
| ThroughputRssiUdp.FastRateFails | demo_scripts/throughput_rssi_ssid_bssid_udp.py:83 | a rate above 1e9 frames per second truncates the gap to 0 and the frame count then raises ZeroDivisionError (also line 138) |
| ThroughputRssiUdp.PayloadText | demo_scripts/throughput_rssi_ssid_bssid_udp.py:150-157 | two hex digits per payload byte, frame size minus 42 bytes, none for smaller frames |
| ThroughputRssiUdp.TriggerFilter | demo_scripts/throughput_rssi_ssid_bssid_udp.py:176 | the conjunction of the port's IP host clause and the UDP port clause |
| ThroughputRssiUdp.TransmitDurationNs | demo_scripts/throughput_rssi_ssid_bssid_udp.py:206 | the port transmits one second longer than the test |
| ThroughputRssiUdp.LossPercent | demo_scripts/throughput_rssi_ssid_bssid_udp.py:272-275 | between 0 and 100 when no more frames arrive than were sent; 0 when all arrive, 100 when none do |
| ThroughputRssiUdp.ResultRow | demo_scripts/throughput_rssi_ssid_bssid_udp.py:237-277 | defaults rssi -127, empty SSID/BSSID, zero counts; WiFi fields from the found interface; counts from the histories when they have the interval; throughput frame_size * rx * 8 once the trigger interval exists; loss only for a non-zero transmit count |
| ThroughputRssiUdp.CollectResults | demo_scripts/throughput_rssi_ssid_bssid_udp.py:236-277 | one result row per network-info interval, in interval order |
| ThroughputRssiUdp.RowsWritable | demo_scripts/throughput_rssi_ssid_bssid_udp.py:352-376 | every row `run` returns writes under the desired columns without error (also lines 390-391) |
| ThroughputRssiUdp.DesiredKeysPresent | demo_scripts/throughput_rssi_ssid_bssid_udp.py:242-251 | every desired CSV column is a key of the result rows (also line 390) |
| Csv.Keys | demo_scripts/throughput_rssi_ssid_bssid_tcp.py:382 | the keys of a result, one per entry, in insertion order |
| Csv.Lookup | demo_scripts/throughput_rssi_ssid_bssid_udp.py:365 | a missing key raises KeyError; otherwise the value stored under the key |
| Csv.Remove | demo_scripts/throughput_rssi_ssid_bssid_tcp.py:383 | `remove` drops the first occurrence of the key: one key fewer, the keys before it in place and the keys after it shifted down by one, so the others keep their order |
| Csv.RemovePermutes | demo_scripts/throughput_rssi_ssid_bssid_tcp.py:383 | removing a key loses exactly one occurrence of it and nothing else |
| Csv.IndexOf | demo_scripts/throughput_rssi_ssid_bssid_tcp.py:383 | the position of the first occurrence of the key |
| Csv.ColumnOrder | demo_scripts/throughput_rssi_ssid_bssid_tcp.py:379-384 | first_key leads, followed by the other keys of the first result in their own order (first_key's first occurrence removed); a first_key that is not a key raises ValueError |
| Csv.ColumnOrderPermutes | demo_scripts/throughput_rssi_ssid_bssid_tcp.py:382-384 | the columns are the first result's keys reordered, each as often as it occurs |
| Csv.ColumnOrderKeepsLeadingKey | demo_scripts/throughput_rssi_ssid_bssid_tcp.py:382-384 | a first_key already in front leaves the insertion order unchanged |
| Csv.RemoveLeading | demo_scripts/throughput_rssi_ssid_bssid_tcp.py:383 | removing the leading key drops the first element |
| Csv.Header | demo_scripts/throughput_rssi_ssid_bssid_tcp.py:388 | the header is one newline-terminated line |
| Csv.Quoted | demo_scripts/throughput_rssi_ssid_bssid_tcp.py:388 | every key in double quotes, in column order |
| Csv.HeaderFields | demo_scripts/throughput_rssi_ssid_bssid_tcp.py:388 | with a separator found in no key, splitting the header line gives back the quoted keys |
| Csv.IntValue | demo_scripts/throughput_rssi_ssid_bssid_tcp.py:400-401 | `int()` of an integer timestamp is itself and of a float truncates it |
| Csv.Cell | demo_scripts/throughput_rssi_ssid_bssid_tcp.py:397-407 | a missing key raises KeyError; the timestamp becomes a date text; strings are quoted; other values are `str()`-ed |
| Csv.CellsMeaning | demo_scripts/throughput_rssi_ssid_bssid_tcp.py:394-407 | a row's cells exist iff every column's cell does; then cell i is column i's text; otherwise the error is some column's |
| Csv.LinesOkIffRowsOk | demo_scripts/throughput_rssi_ssid_bssid_tcp.py:391-409 | the file can be written iff every result's row can |
| Csv.LinesAreRowTexts | demo_scripts/throughput_rssi_ssid_bssid_tcp.py:391-409 | the written lines are the results' row texts, one per result, in order |
| Csv.Line | demo_scripts/throughput_rssi_ssid_bssid_tcp.py:392-409 | the loop appending cells gives the row text, or the first failing column's error |
| Csv.RowOkWhenKeysPresent | demo_scripts/throughput_rssi_ssid_bssid_udp.py:364-374 | a row with every column as a key and a numeric timestamp is written without error |
| Csv.CellsPrefixError | demo_scripts/throughput_rssi_ssid_bssid_tcp.py:397-407 | once a column fails, the row fails with that error |
| Csv.LinesPrefixError | demo_scripts/throughput_rssi_ssid_bssid_tcp.py:391-409 | once a result fails, writing stops with that error |
| Csv.StoppedAtFirstFailure | demo_scripts/throughput_rssi_ssid_bssid_udp.py:358-376 | the writing stops at result k exactly when k is the first result whose row cannot be written |
| Csv.WriteCsv | demo_scripts/throughput_rssi_ssid_bssid_udp.py:352-376 | the quoted header of the given keys, then one line per result, in order; a missing key or unreadable timestamp stops with its error, the file then holding the header and the lines of the results before the failing one |
| Csv.WriteCsvFirstKey | demo_scripts/throughput_rssi_ssid_bssid_tcp.py:377-409 | no results raises IndexError and a first_key that is not a key raises ValueError, both before the file is written; otherwise the header and lines of the reordered columns, or on an error the header and the lines before the failing result |
| InfluenceMonitor.SampleDurationNs | demo_scripts/influence_of_network_monitor_on_tcp_throughput.py:100-102 | the sampling interval times the samples per second is one second |
| InfluenceMonitor.ThroughputMbps | demo_scripts/influence_of_network_monitor_on_tcp_throughput.py:448-449 | none exactly when the result has no throughput; a string throughput raises TypeError |
| InfluenceMonitor.MaxMbpsAppend | demo_scripts/influence_of_network_monitor_on_tcp_throughput.py:446-450 | the maximum over one more result is one more loop step |
| InfluenceMonitor.MaxMbpsIsMaximum | demo_scripts/influence_of_network_monitor_on_tcp_throughput.py:444-451 | the maximum is non-negative, at least every result's whole Mbit/s, and 0 or attained by some result |
| InfluenceMonitor.NoThroughputGivesZero | demo_scripts/influence_of_network_monitor_on_tcp_throughput.py:445-451 | results without a throughput leave the maximum at 0 |
| InfluenceMonitor.MaxMbpsPrefixError | demo_scripts/influence_of_network_monitor_on_tcp_throughput.py:446-450 | an error in earlier results is the error of the whole maximum |
| InfluenceMonitor.GetMaxThroughputMbps | demo_scripts/influence_of_network_monitor_on_tcp_throughput.py:444-451 | the nested loop over the result sets computes the running maximum over all their results in order |
| InfluenceMonitor.MaxOverSet | demo_scripts/influence_of_network_monitor_on_tcp_throughput.py:447-450 | the inner loop continues the running maximum over one result set |
| InfluenceMonitor.StepsKeepError | demo_scripts/influence_of_network_monitor_on_tcp_throughput.py:449 | once an error is raised no later result changes it |
| InfluenceMonitor.MaxMbpsThenSteps | demo_scripts/influence_of_network_monitor_on_tcp_throughput.py:446-450 | the maximum over a + b is the maximum over a continued over b |
| InfluenceMonitor.ErrorSpreads | demo_scripts/influence_of_network_monitor_on_tcp_throughput.py:445-451 | an error in the first result sets is the error of the whole maximum |
| InfluenceMonitor.FlattenSplit | demo_scripts/influence_of_network_monitor_on_tcp_throughput.py:446-447 | the results of all sets are those of the first n sets followed by those of the rest |
| InfluenceMonitor.FlattenCons | demo_scripts/influence_of_network_monitor_on_tcp_throughput.py:446-447 | the results of all sets are the first set's followed by the rest's |
| InfluenceMonitor.Min | demo_scripts/influence_of_network_monitor_on_tcp_throughput.py:463 | `min` returns one of the values and none is smaller |
| InfluenceMonitor.HttpRow | demo_scripts/influence_of_network_monitor_on_tcp_throughput.py:280-288 | a dictionary with exactly the keys timestamp and throughput, in that order, holding the interval's timestamp and `int(rate_bps)` |
| InfluenceMonitor.HttpRows | demo_scripts/influence_of_network_monitor_on_tcp_throughput.py:279-290 | one row per HTTP interval, in interval order |
| InfluenceMonitor.MaxMbpsOkWithoutStrings | demo_scripts/influence_of_network_monitor_on_tcp_throughput.py:445-451 | without a string throughput among the results the running maximum raises nothing |
| InfluenceMonitor.HttpRowThroughput | demo_scripts/influence_of_network_monitor_on_tcp_throughput.py:448-449 | reading back a row of the run without a monitor gives its `int(rate_bps)` in whole Mbit/s, never a missing key or a TypeError |
| InfluenceMonitor.HttpRowsBoundMaximum | demo_scripts/influence_of_network_monitor_on_tcp_throughput.py:445-451 | over the rows of the run without a monitor the maximum exists and is at least each interval's rate in whole Mbit/s (also line 501) |
| InfluenceMonitor.PlotSeries | demo_scripts/influence_of_network_monitor_on_tcp_throughput.py:454-464 | no rows raises ValueError; otherwise times in seconds shifted so the earliest is 0, keeping order and differences, and throughputs in whole Mbit/s |
| RssiVsUdpLoss.TransmitDurationNs | demo_scripts/rssi_vs_udp_loss.py:199 | the port transmits one second longer than the gap times the frame count |
| RssiVsUdpLoss.WindowCoversEveryFrame | demo_scripts/rssi_vs_udp_loss.py:132-133 | every frame's gap ends at least one second before the transmit window closes (also line 199) |
| Ipv4Tcp.SampleOf | wireless_endpoint/ipv4_tcp.py:262-271 | the sample keeps the interval's timestamp and byte count; its Mbit/s times the sampling duration in ns is 8000 times the bytes (also lines 293-298) |
| Ipv4Tcp.CollectResults | wireless_endpoint/ipv4_tcp.py:257-291 | one transmit and one receive sample per interval, in interval order; the latest cumulative snapshot only when the history holds one; a zero sampling duration with intervals raises ZeroDivisionError |
| Ipv4TcpHistory.SampleCount | wireless_endpoint/ipv4_tcp_history.py:97-102 | the least number of 100 ms samples that covers twice the test duration |
| Ipv4TcpHistory.CollectResults | wireless_endpoint/ipv4_tcp_history.py:270-289 | one sample per TCP interval, in interval order, each counter under its own key |
| Video.Millis | demo_scripts/plotting/video.py:60 | nanoseconds to whole milliseconds, truncated toward zero for negative stamps too |
| Video.ConsolidateDatasets | demo_scripts/plotting/video.py:50-65 | three series, buffer size, bytes downloaded and bytes consumed in that order, each with one (ms, value) point per result in input order |
| Video.LabelsFollowItems | demo_scripts/plotting/video.py:72-74 | series 0, 1 and 2 are labelled Buffer, Downloaded and Consumed, and no two items share a label (also line 55) |
| Style.Wrap | demo_scripts/plotting/config.py:8 | the styled text is the opening, the text and the closing `</span>`, each recoverable by position (also lines 13, 18) |
| Style.Title | demo_scripts/plotting/config.py:6-8 | a title is the text between the common styling with the 20px blue style and the closing tag |
| Style.XAxis | demo_scripts/plotting/config.py:11-13 | an x-axis label is the text between the common styling with the 12px orange bold style and the closing tag |
| Style.YAxis | demo_scripts/plotting/config.py:16-18 | a y-axis label carries the given colour, or #00AEEF when none is given, before the bold style |
| Style.TitleRoundTrip | demo_scripts/plotting/config.py:6-8 | a title starts with the common styling, ends with `</span>` and gives back its text |
| Style.XAxisRoundTrip | demo_scripts/plotting/config.py:11-13 | an x-axis label starts with the common styling, ends with `</span>` and gives back its text |
| Style.YAxisRoundTrip | demo_scripts/plotting/config.py:16-18 | a y-axis label starts with the common styling followed by its colour, ends with `</span>` and gives back its text |
| PingFlood.CreateMacAddressHasEightGroups | back2back/use_cases/ping_flood.py:35-38 | as written: "00", "bb" and six random two-digit groups make eight colon-separated groups, 23 characters, not a six-octet MAC address |
| PingFlood.FrameSize | back2back/use_cases/ping_flood.py:69-70 | the frame size is its byte count, half the length of its hex text |
| PingFlood.Gap | back2back/use_cases/ping_flood.py:76 | the gap times the speed is the frame plus 24 bytes of overhead, in bits; a zero speed raises ZeroDivisionError |
| PingFlood.InterFrameGapNs | back2back/use_cases/ping_flood.py:77 | the gap in seconds as whole nanoseconds, truncated |
| PingFlood.NumberOfFrames | back2back/use_cases/ping_flood.py:78-79 | the number of whole gaps in ten seconds; a zero gap raises ZeroDivisionError |
| PingFlood.TestConnection | back2back/use_cases/ping_flood.py:52-100 | a zero speed raises ZeroDivisionError; otherwise the report carries the triggers' echo and reply counts |
| PingFlood.FloodFitsDuration | back2back/use_cases/ping_flood.py:76-80 | at a positive speed the frames sent fit in ten seconds and one more would not, the stream's gap is the gap in ns, and the reported rate is one frame per gap (also line 100) |
| PingFlood.Percentage | back2back/use_cases/ping_flood.py:118-119 | the share of requests seen, in percent, between 0 and 100 when no more than were sent arrive; no requests raises ZeroDivisionError |
| PingFlood.SummaryFailsOnlyForSlowSpeeds | back2back/use_cases/ping_flood.py:118-119 | the summary raises ZeroDivisionError exactly when the gap exceeds ten seconds, so no whole frame is sent (also line 79) |
| PingFlood.ParseArguments | back2back/use_cases/ping_flood.py:126-134 | three or four arguments run, with the fourth as the speed or 999 Mbit/s by default; any other count prints the usage |
| PingFlood.SpeedBps | back2back/use_cases/ping_flood.py:110-112 | the speed handed to the test is the Mbit/s figure in bit/s |
| PingFloodDash.Gap | back2back/use-cases/ping_flood.py:67 | the gap times the speed is the frame plus 24 bytes of overhead, with no factor 8; a zero speed raises ZeroDivisionError |
| PingFloodDash.GapIsOneEighth | back2back/use-cases/ping_flood.py:67 | this copy's gap is one eighth of the use_cases copy's, for the same frame and speed |
| PingFloodDash.TestConnection | back2back/use-cases/ping_flood.py:43-90 | as written: `time.sleep` with only `sleep` imported raises NameError, or ZeroDivisionError first at a zero speed; it never reports (also line 18) |
| PingFloodDash.TestConnectionCorrected | back2back/use-cases/ping_flood.py:43-90 | with `time` imported: a zero speed raises ZeroDivisionError; otherwise the report carries the triggers' counts |
| PingFloodDash.CorrectedFloodFitsDuration | back2back/use-cases/ping_flood.py:67-71 | at a positive speed the corrected test's frames fit in ten seconds and one more would not, at one frame per gap (also line 90) |
| PingFloodDash.ParseArguments | back2back/use-cases/ping_flood.py:92-106 | fewer than three arguments raise IndexError; any more run, the speed parsed only from exactly four arguments, else 999 |
| PingFloodDash.ArgumentRulesCompared | back2back/use-cases/ping_flood.py:92-106 | the two copies agree on three or four arguments; with more, only this copy runs, at 999 Mbit/s |
| ServerOverview.ByInterfaceCounts | server_management/server_overview.py:38-44 | an interface is a key exactly when some user is on it, and its value is its number of users, at least 1 |
| ServerOverview.GroupByInterface | server_management/server_overview.py:38-44 | the counting loop builds the users-per-interface map |
| ServerOverview.TrafficStep | server_management/server_overview.py:50-57 | as written: the counter grows by the reading minus "prev_bytes", and "prev_bytes" keeps its value |
| ServerOverview.TrafficStepCorrected | server_management/server_overview.py:50-57 | corrected: the counter grows by the reading minus "prev_bytes", and the reading becomes the new "prev_bytes" |
| ServerOverview.ServerMetrics.constructor | server_management/server_overview.py:25-35 | one bookkeeping entry per interface name, with "prev_bytes" 0; no gauge or counter set yet |
| ServerOverview.ServerMetrics.UserCount | server_management/server_overview.py:37-46 | every interface with users has its gauge set to its number of users; others keep their value; nothing else changes |
| ServerOverview.ServerMetrics.TrafficCount | server_management/server_overview.py:49-57 | as written: each interface's counter grows by its reading minus its unchanged "prev_bytes"; other counters and the users gauge are untouched |
| ServerOverview.ServerMetrics.TrafficCountCorrected | server_management/server_overview.py:49-57 | corrected: each interface's counter grows by its reading minus "prev_bytes", which then holds the reading |
| ServerOverview.CounterSumsReadings | server_management/server_overview.py:69-72 | as written, after any number of refreshes the exported counter is the sum of all cumulative readings (also lines 56-57) |
| ServerOverview.CorrectedCounterIsLatestReading | server_management/server_overview.py:69-72 | corrected, the increments telescope and the counter equals the latest cumulative reading (also lines 56-57) |
| ServerOverview.DoubleCountExample | server_management/server_overview.py:56-57 | two refreshes that both read 100 bytes export 200 as written and 100 corrected |
| NetworkInfoMonitor.ScenarioDurationNs | wireless_endpoint/networkinfomonitor.py:73 | the scenario lasts duration_s whole seconds, in nanoseconds |
| NetworkInfoMonitor.LastDisplayNamed | wireless_endpoint/networkinfomonitor.py:115-118 | the loop never breaks, so the LAST interface with the configured display name is kept; none when no interface has it |
| NetworkInfoMonitor.RowOf | wireless_endpoint/networkinfomonitor.py:123-130 | the interval's time with the interface's quoted SSID and BSSID, channel, RSSI and transmit rate |
| NetworkInfoMonitor.CollectResults | wireless_endpoint/networkinfomonitor.py:112-136 | one row per interval, in order, read from the last matching interface; an interval without one raises AttributeError |
| NetworkInfoMonitor.RowFields | wireless_endpoint/networkinfomonitor.py:173 | six texts per row, the quoted SSID and BSSID second and third |
| NetworkInfoMonitor.HeaderLineFields | wireless_endpoint/networkinfomonitor.py:103-110 | the header line splits back into the six quoted column names (also line 171) |
| NetworkInfoMonitor.IntTextWithoutSemicolon | wireless_endpoint/networkinfomonitor.py:173 | the text of a number never holds the separator |
| NetworkInfoMonitor.RowLineFields | wireless_endpoint/networkinfomonitor.py:172-173 | a row whose SSID and BSSID hold no ';' is written as exactly its six fields |
| NetworkInfo.FirstDisplayNamed | wireless_endpoint/networkinfo.py:101-103 | the first interface with the configured display name; none when no interface has it |
| NetworkInfo.SelectInterface | wireless_endpoint/networkinfo.py:100-107 | the first interface with the configured name; without one, the loop variable is left on the last interface; none only when the list is empty |
| NetworkInfo.Run | wireless_endpoint/networkinfo.py:76-138 | no configured UUID and no Available device aborts; an empty interface list is an error; otherwise the polled interface is the first one with the wanted display name, else the last one, and there is one tuple per second of duration_s, the k-th read from that interface after the k-th refresh |
| Ipv4Example.RaisedMdl | back2back/ipv4_example.py:35-41 | a port's MDL is raised to the Ethernet length only when that is larger, and never lowered |
| Ipv4Example.TransmitSeconds | back2back/ipv4_example.py:61-66 | the sleep lasts the gap times the frame count, in seconds |
| Ipv4Example.Flows | back2back/ipv4_example.py:44-49 | one flow from source to destination, and a second only with bidir |
| Ipv4Example.ReverseFlowSwaps | back2back/ipv4_example.py:44-49 | the reverse flow streams from the destination port and triggers on the source port, with IP addresses and UDP ports swapped |
| Ipv4Example.Loss | back2back/ipv4_example.py:96 | the lost share of transmitted frames in percent, between 0 and 100 when no more arrive than were sent; 0.0 when nothing was sent (also line 100) |
| Ipv4Example.Results | back2back/ipv4_example.py:94-106 | as written: without bidir `loss2` is unbound at the print and raises NameError; with bidir both losses are returned |
| Ipv4Example.ResultsCorrected | back2back/ipv4_example.py:94-106 | the forward loss, and the reverse loss only with bidir; it agrees with the as-written result wherever that succeeds |
| Ipv4Example.OneWayRunFails | back2back/ipv4_example.py:98-104 | a one-way run with no loss raises NameError as written and reports [0.0] corrected |
| ConnectedModems.MacGroups | server_management/connected_modems.py:30-31 | "00", "bb" and four random bytes formatted with `%2x` |
| ConnectedModems.SpacePadded2Shape | server_management/connected_modems.py:31 | `%2x` gives two characters, a leading space below 16, and the two hex digits from 16 on |
| ConnectedModems.SpacePaddedMacIsMalformed | server_management/connected_modems.py:26-32 | as written: six colon-separated groups, but not a well-formed MAC whenever a random byte is below 16 |
| ConnectedModems.SpacePaddedExample | server_management/connected_modems.py:26-32 | a random byte 10 gives a malformed MAC as written |
| ConnectedModems.LargeValuesGiveIntendedMac | server_management/connected_modems.py:26-32 | when every random byte is at least 16 the text is the intended zero-padded MAC |
| ConnectedModems.WithPrefix | server_management/connected_modems.py:63-65 | exactly the interface names that start with the trunk base, never more than there are |
| ConnectedModems.EmptyBaseKeepsAll | server_management/connected_modems.py:55 | the default empty trunk base scans every interface (also lines 64, 114) |
| ConnectedModems.WithDhcp | server_management/connected_modems.py:76-84 | exactly the ports whose DHCP succeeded (or failed, for the other list) |
| ConnectedModems.DhcpPartitions | server_management/connected_modems.py:76-84 | every port is either responding or destroyed, never both and never lost |
| ConnectedModems.TrunkPorts | server_management/connected_modems.py:62-73 | the port-creating loop keeps the interfaces with the trunk base, in order |
| ConnectedModems.DhcpRound | server_management/connected_modems.py:75-84 | the DHCP loop splits the ports into responding and failed ones, in order |
| ConnectedModems.InspectTrunk | server_management/connected_modems.py:55-99 | failed ports are destroyed during DHCP and responding ones after resolving, so every created port is destroyed exactly once |
| ConnectedModems.ParseArguments | server_management/connected_modems.py:101-114 | one or two arguments run, with the second as the trunk base or "" by default; any other count exits |
| Ipv6UdpUp.Lower | wireless_endpoint/ipv6_udp_up.py:110 | `lower()` on ASCII: upper-case letters become lower-case, other characters stay (also line 114) |
| Ipv6UdpUp.ManualAddress | wireless_endpoint/ipv6_udp_up.py:121 | the address, a '/' and the prefix length |
| Ipv6UdpUp.ManualAddressRoundTrip | wireless_endpoint/ipv6_udp_up.py:121 | the address before the '/' of a manual address is the configured address (also line 163) |
| Ipv6UdpUp.PortSetup | wireless_endpoint/ipv6_udp_up.py:110-122 | "dhcp" and "slaac" in any case select those; a list is a manual address; any other text is indexed as a list, IndexError when shorter than two characters |
| Ipv6UdpUp.AddressList | wireless_endpoint/ipv6_udp_up.py:153-159 | as written: exactly "dhcp" reads the DHCP addresses, exactly "slaac" the stateless ones, a list the manual ones, any other text the link-local ones |
| Ipv6UdpUp.AddressListCorrected | wireless_endpoint/ipv6_udp_up.py:110-122 | the addresses of the method the port was configured with, matched without case as the setup does (also lines 153-159) |
| Ipv6UdpUp.UpperCaseDhcpUsesLinkLocal | wireless_endpoint/ipv6_udp_up.py:110 | "DHCP" sets up DHCP but as written reads the link-local addresses; corrected it reads the DHCP ones (also line 155) |
| Ipv6UdpUp.PortIpv6 | wireless_endpoint/ipv6_udp_up.py:161-163 | the last address without its prefix length; none when the port has no address |
| Ipv6UdpUp.TriggerFilter | wireless_endpoint/ipv6_udp_up.py:191 | the IPv6 host and UDP port conjunction; no port address raises TypeError |
| Ipv6UdpUp.FirstNamed | wireless_endpoint/ipv6_udp_up.py:276-277 | the first interface with the traffic interface's name; none when none has it |
| Ipv6UdpUp.SelectWirelessEndpointAddresses | wireless_endpoint/ipv6_udp_up.py:268-280 | the global addresses of the first matching interface, prefix lengths stripped, in order; [] without one |
| Ipv6UdpUp.StripPrefixLengths | wireless_endpoint/ipv6_udp_up.py:278 | each address up to its first '/', in order |

## Left out

- SDK and network calls (server, MeetingPoint, Wireless Endpoint, port and flow configuration) are not modelled. Their results are parameters, and the commands they send are recorded or omitted.
- Sleeps, clocks and polling timeouts are not modelled. Times are parameters, and a wait loop is modelled by the sample sequence it ends up reading.
- `random` values are parameters: the random MAC bytes, ports and payload contents.
- Scapy packet objects are opaque: only the layer stacks and the frame lengths are modelled, not scapy's byte serialisation.
- Python float rounding is not modelled: float formulas are computed exactly on `real`. The rounding of minimum and mean latencies to three decimals is therefore left out.
- Python `int()` leniency is not modelled: signs, surrounding whitespace and underscores are not accepted. A field is an integer exactly when it is a non-empty run of decimal digits; otherwise it raises ValueError.
- The timestamp and float parsers (`human_readable_date`, `get_millis`, `float()` on CSV fields) are function parameters.
- `lookup_vendor_name` in server_management/connected_modems.py queries a web service (network I/O), and it is not modelled.
- The NAT resolution in back2back/use_cases/udp_traffic_with_resolving.py is an SDK call. The public endpoint it answers with is a parameter of the model.
- wireless_endpoint/ipv4_tcp.py:99 passes a float `sample_count` to the SDK, and that value is not modelled.
- The `is_done` polling helper of wireless_endpoint/ipv4_gaming_with_qed.py:483-490 waits on SDK state, and it is not modelled.
- The list of (tx, rx) counters that back2back/ipv4_multiflow.py:186-201 returns is a list of SDK reads, and it is not modelled.
- The result of demo_scripts/rssi_vs_udp_loss.py:219-227, a `{'tx': …, 'rx': …}` dictionary of SDK counters, is not modelled; the script computes no loss itself. Only its interface and device selection and its transmit window are modelled.
- The plotting of demo_scripts/influence_of_network_monitor_on_tcp_throughput.py:475-487 is not modelled. The rows of its monitored run (333-378) are built exactly as `ThroughputRssiTcp.ResultRow` builds them and are not modelled separately; the rows of its run without a monitor (279-290) are `InfluenceMonitor.HttpRows`.
- matplotlib and Highcharts rendering are not modelled; only the styles, the categories and the data series the plotting scripts compute are.
- The Prometheus exporter of server_management/server_overview.py is modelled as per-instance maps from label to value, without the HTTP endpoint.
- Usage messages and `sys.exit` are not modelled. Command-line parsing is modelled where a script's result depends on it (`ConnectedModems.ParseArguments`, `HttpResponseTime.ProfileFor` and both `ParseArguments` of the ping flood scripts). Elsewhere the option values are parameters.

## Findings

| source | as written | input that shows it | evidently intended | confidence | as-written member | corrected member |
|---|---|---|---|---|---|---|
| back2back/ipv6_multicast_mldv2.py:276-280 | the 'a' padding is frame_size minus 42 bytes, the Ethernet/IPv4/UDP header length, under Ethernet/IPv6/UDP headers of 62 bytes | any frame_size of at least 62: the frame sent is frame_size + 20 bytes long | pad with frame_size minus the IPv6 header length, so that the frame is frame_size bytes | not executed | Ipv6Multicast.GenerateFrameString, Ipv6Multicast.FrameTooLong | Ipv6Multicast.GenerateFrameStringCorrected |
| wireless_endpoint/ipv4_gaming_with_qed.py:545-547 | `get_bucket_index` compares the percentile, a percentage, against `below`, a packet count | 100 of 200 packets below the range and the 75th percentile: 75 <= 100 classifies it BELOW | compare against the below-range share in percent (50 %), which puts it INSIDE bucket 0 | not executed | Qed.Locate, Qed.BelowComparesPacketCount | Qed.LocateCorrected, Qed.LocateCorrectedIsFirstShare |
| back2back/tcp.py:181-215 | both branches of `process_results` test for GET, so a PUT leaves the throughput an int and `avg_throughput.toString()` raises AttributeError | a PUT request | the second branch tests PUT and reports the server session's counters | not executed | Tcp.ProcessResults, Tcp.PutRequestFails | Tcp.ProcessResultsCorrected |
| back2back/use_cases/ping_flood.py:35-38 | the MAC address is "00", "bb" and six random groups: eight groups in 23 characters | any six random bytes | six octets, "00:bb:" followed by four random ones | not executed | PingFlood.CreateMacAddressHasEightGroups | MacText.BbMac |
| back2back/use-cases/ping_flood.py:75 | only `sleep` is imported from `time` (line 18), yet the flood waits with `time.sleep` | any speed above zero: NameError before the report | wait with the imported `sleep` and report the replies | not executed | PingFloodDash.TestConnection | PingFloodDash.TestConnectionCorrected, PingFloodDash.CorrectedFloodFitsDuration |
| back2back/ipv4_example.py:96-104 | `loss2` is assigned only when bidir is set but printed in every case | a one-way run (bidir unset): NameError at the print | report the reverse loss only for a bidirectional run | not executed | Ipv4Example.Results, Ipv4Example.OneWayRunFails | Ipv4Example.ResultsCorrected |
| server_management/connected_modems.py:31 | `'%2x'` pads a byte below 16 with a space | a random byte 10 gives the group " a" | `'%02x'`, two hexadecimal digits | not executed | ConnectedModems.SpacePaddedExample | MacText.BbMac |
| server_management/server_overview.py:56-57 | `traffic_info[prev_bytes] = current_bytes` stores the reading under the integer key equal to the value of `prev_bytes` (0), so the "prev_bytes" entry stays 0 and each refresh adds the whole reading again | two refreshes that both read 100 bytes export 200 | add only the growth since the previous reading | not executed | ServerOverview.ServerMetrics.TrafficCount, ServerOverview.DoubleCountExample, ServerOverview.CounterSumsReadings | ServerOverview.ServerMetrics.TrafficCountCorrected, ServerOverview.CorrectedCounterIsLatestReading |
| wireless_endpoint/ipv6_udp_up.py:153-159 | the setup matches the address method without case (lines 110-122), the address choice with case | "DHCP": DHCP is set up but the link-local addresses are read | choose the addresses without case, as the setup does | not executed | Ipv6UdpUp.AddressList, Ipv6UdpUp.UpperCaseDhcpUsesLinkLocal | Ipv6UdpUp.AddressListCorrected |
