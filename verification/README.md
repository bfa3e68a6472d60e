# Gionee P4 device tree: verified models

A Dafny 4.11 model of the parts of the device tree that hold algorithms and state, with proofs of what
they promise over every input, every history and every interleaving. `dafny verify dfyconfig.toml`
checks the whole project.

| files | component |
|---|---|
| `Lights.dfy`, `LightHistory.dfy`, `LightProtocol.dfy` | the LED multiplexer of the lights HAL, over call histories and under threads |
| `Printf.dfy`, `Report.dfy`, `LinkDetect.dfy`, `StaStatistics.dfy` | the Wi-Fi driver's bounded reports and their reply decoder |
| `Dispatcher.dfy`, `Mcc.dfy`, `Bits.dfy` | the driver command chain, the `mcc` list walk, the command-word mask |
| `JavaText.dfy`, `OperatorInfos.dfy` | the RIL's hexadecimal, UTF-16 and operator-list decoding |
| `Solicited.dfy`, `Unsolicited.dfy` | the RIL's request/reply protocol and its in-place parcel rewriting |
| `BootImage.dfy` | the ramdisk header packer |
| `UsbGadget.dfy` | the `sys.usb.config` triggers as a command-by-command machine |
| `Options.dfy`, `Bytes.dfy` | shared vocabulary |

## Main results

- **Lights.** The incremental winner is the highest source whose latest request is lit, for every history and
  any number of sources, and the LED shows the 24 bits of that request's colour; histories with the same latest
  requests end alike. Under every interleaving of any
  number of threads, memory and the sysfs trace are those of the calls in lock order plus a prefix of the one
  frame of the mutex holder; the mutex is never re-initialised while held or awaited, and there is no deadlock.
- **Reports.** A scanner undoes every format used. Link-detect replies survive decoding, printing and parsing;
  a buffer always suffices iff it has 267 bytes. The statistics report is all or nothing, and a reader that
  knows only its labels finds every field behind its own label.
- **Commands.** At most one test of the chain matches a command, but for the two sleep forms, so the order of
  the tests does not matter and each branch is taken exactly for its own pattern. A run of `mcc` commands has the effect of the last effective one.
- **RIL.** Names round-trip iff they are well-formed UTF-16 without a leading mark. The operator-list loop is one
  function mapped over groups of five, and fails exactly when a group fails. Every message is delivered by the
  first reply to its request and nothing else, as a value, an error or an exception exactly when that reply says so; sent = pending + answered. The superclass sees each unsolicited
  parcel at most once, rewritten in nothing but its code.
- **Boot image.** Unpacking undoes packing iff the name fits and the length is below 2^32, for any number of layers.
- **USB.** At every intermediate step, gadget files change only while the gadget is disabled, and an enabled
  product id determines vendor and functions. adbd matches the gadget iff no adb configuration since the last
  `none` was replaced by one without adb; a two-step counterexample shows the unrestricted claim is false.

## Reading the model

- Sysfs writes are recorded as attempted, because the code ignores their errors; the LED is dark at the start.
- `snprintf` copies what fits, terminates it and answers the full length. `MACSTR` is the usual six `%02x`
  groups. The transmit rate is counted in halves, which is exact for a 16-bit value divided by two.
- Negating -2^63 in the link-detect decoder is undefined in C; the model wraps, which again gives the magnitude.
- Flag words in `Mcc` are the set of their one bits, and `cfg` stands for the two-step path `global->p2p->cfg`.
- Java strings are sequences of 16-bit units and exceptions are a `Throws` result. The operator table, the
  superclass decoders, `Integer.parseInt` and system properties are parameters.
- The symbolic request codes are Android's 1 to 103 and 108 (103 consecutive cases, then 104 to 107 as numbers);
  the unsolicited ones are 1000, 1001, 1002 and 1019. A parcel read past its end yields 0.
- UTF-16 decoding replaces unpaired surrogates one by one, as Android's ICU converter does.
- Perl's `L` is little-endian, as on the build hosts.
- A USB trigger runs to its end before the next configuration is set, and `sys.usb.vid` is set once at boot.

## Model

| member | source | states |
|---|---|---|
| Lights.ChannelsAreTheLowBytes | liblight/lights.c:138-140 | red, green and blue are bytes that recombine, from bit 16, 8 and 0 on, to the low 24 bits of the colour |
| Lights.ChannelsIgnoreAlpha | liblight/lights.c:110-116 | masking the colour with 0x00ffffff changes none of the three channels |
| Lights.BrightnessOfBytes | liblight/lights.c:110-116 | a colour built from an alpha byte and three channel bytes has brightness (77 r + 150 g + 29 b) / 256 |
| Lights.BrightnessWithinChannels | liblight/lights.c:110-116 | brightness lies between the smallest and largest channel, is a byte, exact on greys, and is the floor of the weighted mean of the unmasked channels |
| Lights.BrightnessMonotone | liblight/lights.c:110-116 | brightness is monotone in each channel and ignores alpha |
| Lights.Frame | liblight/lights.c:131-155 | an LED update is eight writes bracketed by rgb_start 0 and 1 |
| Lights.DisplayFrame | liblight/lights.c:138-152 | after a whole frame the three registers recombine to the low 24 bits of the colour, whatever was shown before |
| Lights.PanelOfMeaning | liblight/lights.c:138-152 | the panel of an LED setting recombines to its low 24 bits and blinks with its times on every channel |
| Lights.FrameFiles | liblight/lights.c:142-152 | after a frame the last write to each of the seven files is its own channel byte, its times, or rgb_start 1 |
| Lights.LowerLit | liblight/lights.c:204-212 | the downward search finds the highest lit source below the given one, or -1 |
| Lights.SetLightRecomputes | liblight/lights.c:191-219 | from a right state, one call yields the recomputed winner, keeps the display right, and writes exactly one frame, of the new winner, iff the caller is the old or the new winner |
| Lights.InitialInv | liblight/lights.c:55-56 | the static initial state is right: nothing lit, winner -1, LED dark |
| Lights.LightMux.constructor | liblight/lights.c:55-56 | the in-place object starts in the static initial state |
| Lights.LightMux.WriteLedsLocked | liblight/lights.c:131-155 | appends exactly the eight writes of a frame and leaves the LED on the given setting |
| Lights.LightMux.SetLightLocked | liblight/lights.c:157-222 | the in-place code with its search loop equals the value form, answers -EINVAL outside the table, and keeps winner and display right |
| LightHistory.RunRefinesLatest | liblight/lights.c:157-222 | for every history and number of sources: table, winner and LED are those recomputed from the latest request per source |
| LightHistory.WinnerShowsItsRequest | liblight/lights.c:157-222 | the winner's latest request is lit, every higher source is silent, the three values on the LED recombine to the low 24 bits of that request's colour, and all channels blink with its times iff it flashes; without a winner the LED is dark |
| LightHistory.SameLatestSameOutcome | liblight/lights.c:191-219 | histories with the same latest request per source reach the same table, winner and display |
| LightHistory.CallsCommute | liblight/lights.c:191-219 | calls from different sources commute after any history |
| LightHistory.CallEmits | liblight/lights.c:191-219 | a call emits at most one frame, and none from a source below the shown one |
| LightHistory.AttentionMeaning | liblight/lights.c:244-267 | after the fix-up, attention is lit iff a flash with a colour was asked for; only the steady hardware request loses its times |
| LightProtocol.Emission | liblight/lights.c:118-155 | a call writes nothing, one brightness value, or one whole frame |
| LightProtocol.SerialTraceIsBlocks | liblight/lights.c:118-155 | a serial trace is the concatenation of one such block per call |
| LightProtocol.StepKeepsOnce | liblight/lights.c:323-337 | every step keeps: no setter before initialisation is done, and one initialising thread at most |
| LightProtocol.StepKeepsLock | liblight/lights.c:62-66 | every step keeps mutual exclusion, the re-initialising one included |
| LightProtocol.StepKeepsSerial | liblight/lights.c:224-271 | every step keeps memory and trace equal to a serial run of the finished calls plus the holder's progress |
| LightProtocol.RunKeeps | liblight/lights.c:224-337 | all three invariants hold in every reachable state of every interleaving |
| LightProtocol.InterleavingIsSerial | liblight/lights.c:118-271 | any interleaving equals the calls in lock order; the trace is whole blocks plus a prefix of the block of the call of the lock holder |
| LightProtocol.MutexSafety | liblight/lights.c:62-66 | one holder at a time, and the mutex is never re-initialised while held or awaited |
| LightProtocol.SomeThreadCanAdvance | liblight/lights.c:224-337 | no deadlock in any reachable state |
| LightProtocol.QuiescentDisplay | liblight/lights.c:224-271 | with the mutex free, table, winner and LED are those of the latest requests in lock order |
| LightProtocol.LedShowsWanted | liblight/lights.c:166-170 | with the mutex free, the LED shows the last attention call if lit, else the last notification, else the last battery call, else nothing |
| LightProtocol.LedShowsColour | liblight/lights.c:157-271 | the same on the calls: the three LED values recombine to the low 24 bits of the colour asked for by the last attention, notification or battery call, in that order, with that call's times |
| LightProtocol.BrightnessFilesFollow | liblight/lights.c:118-129 | after a serial run the backlight file holds the brightness of the last backlight call and the button file that of the last button call |
| LightProtocol.BrightnessUnderThreads | liblight/lights.c:284-295 | the same under every interleaving, whenever the mutex is free |
| Printf.ScanUndoesPrint | wpa_supplicant_8_lib/mediatek_driver_cmd_nl80211.c:589-740 | for every format whose numbers are delimited, scanning recovers all printed values and the text behind them |
| Printf.DecimalLength | wpa_supplicant_8_lib/mediatek_driver_cmd_nl80211.c:804-841 | a number prints in at most k digits iff it is below 10^k |
| Printf.DecimalPlace | wpa_supplicant_8_lib/mediatek_driver_cmd_nl80211.c:594-647 | the digit k places from the right of a decimal number is the one for n / 10^k mod 10 |
| Printf.HexPlace | wpa_supplicant_8_lib/mediatek_driver_cmd_nl80211.c:609-612 | the same for %0wX and %0wx, with upper- and lower-case digits and zeros in front |
| Printf.SignAndPoint | wpa_supplicant_8_lib/mediatek_driver_cmd_nl80211.c:604-617 | %d has a minus sign exactly in front of a negative number; %.1f of n halves ends in .0 or .5 behind n / 2 |
| Report.Snprintf | wpa_supplicant_8_lib/mediatek_driver_cmd_nl80211.c:589-592 | copies what fits behind the position, terminates it, answers the full length, leaves the rest |
| Report.Append | wpa_supplicant_8_lib/mediatek_driver_cmd_nl80211.c:589-592 | one call with its check extends the report by one whole piece, or shows that exactly the pieces so far fit |
| Report.FitCountIsLongest | wpa_supplicant_8_lib/mediatek_driver_cmd_nl80211.c:804-843 | the fit count is the length of the longest prefix of pieces that is shorter than the buffer |
| Report.ReadBackUndoesFull | wpa_supplicant_8_lib/mediatek_driver_cmd_nl80211.c:579-740 | reading a full report back yields every argument of every call |
| Report.FullInjective | wpa_supplicant_8_lib/mediatek_driver_cmd_nl80211.c:579-740 | reports of the same formats have equal text only with equal arguments |
| LinkDetect.AckIsMagnitude | wpa_supplicant_8_lib/mediatek_driver_cmd_nl80211.c:241-247 | the acknowledge-failure counter is stored as the absolute value of the signed 64-bit reading |
| LinkDetect.StaLinkDetect.Decode | wpa_supplicant_8_lib/mediatek_driver_cmd_nl80211.c:229-264 | the attribute loop replaces exactly the fields whose attribute is present |
| LinkDetect.DecodedFields | wpa_supplicant_8_lib/mediatek_driver_cmd_nl80211.c:229-264 | field by field: an absent attribute keeps what its own field held, a present one is what the field holds now |
| LinkDetect.PrintLinkDetect | wpa_supplicant_8_lib/mediatek_driver_cmd_nl80211.c:797-843 | the buffer receives the longest prefix of whole lines that fits, and its length is returned |
| LinkDetect.ReportText | wpa_supplicant_8_lib/mediatek_driver_cmd_nl80211.c:804-841 | the eight lines are these literal names, each followed by its own counter in decimal and a newline |
| LinkDetect.ReportLength | wpa_supplicant_8_lib/mediatek_driver_cmd_nl80211.c:804-843 | a report has at most 266 characters, and 266 is reached |
| LinkDetect.BufferThatAlwaysFits | wpa_supplicant_8_lib/mediatek_driver_cmd_nl80211.c:804-843 | all eight lines fit for every choice of counters iff the buffer has at least 267 bytes |
| LinkDetect.ParseUndoesPrint | wpa_supplicant_8_lib/mediatek_driver_cmd_nl80211.c:804-843 | parsing the text of a report yields all eight 64-bit counters |
| LinkDetect.DecodePrintParse | wpa_supplicant_8_lib/mediatek_driver_cmd_nl80211.c:229-264 | decode, print and parse give back every counter of a complete reply, whatever the struct held before |
| LinkDetect.GetStaLinkDetect | wpa_supplicant_8_lib/mediatek_driver_cmd_nl80211.c:788-845 | -1 and an untouched buffer without a reply, else the longest prefix of lines that fits; in 267 bytes or more a complete reply is parsed back from the buffer |
| StaStatistics.PrintRadio | wpa_supplicant_8_lib/mediatek_driver_cmd_nl80211.c:589-617 | the first six lines extend the report, or some piece does not fit |
| StaStatistics.PrintCounters | wpa_supplicant_8_lib/mediatek_driver_cmd_nl80211.c:619-647 | the six counter lines extend the report, or some piece does not fit |
| StaStatistics.PrintQueues | wpa_supplicant_8_lib/mediatek_driver_cmd_nl80211.c:649-693 | the per-class lines, the flag word and the heading extend the report, or some piece does not fit |
| StaStatistics.PrintBytes | wpa_supplicant_8_lib/mediatek_driver_cmd_nl80211.c:694-706 | the grouped hexadecimal loop extends the report by its bytes and spaces, or some piece does not fit |
| StaStatistics.PrintStaStatistics | wpa_supplicant_8_lib/mediatek_driver_cmd_nl80211.c:579-740 | a non-zero length is returned iff the full report is shorter than the buffer, and then the buffer holds all of it, terminated |
| StaStatistics.ReportReadsBack | wpa_supplicant_8_lib/mediatek_driver_cmd_nl80211.c:579-740 | a reader that knows only the literal labels finds behind each of the 19, in order, the value of its own field: six address bytes, counters as signed numbers, four classes in order, the flag word, and reserved bytes 0-15 and 16-31 |
| StaStatistics.ReportDeterminesStats | wpa_supplicant_8_lib/mediatek_driver_cmd_nl80211.c:579-740 | two statistics with the same full text are equal in every printed field |
| Dispatcher.KeyOfHit | wpa_supplicant_8_lib/mediatek_driver_cmd_nl80211.c:993-1229 | a few character positions of a matching command single out its test |
| Dispatcher.TestsAreDisjoint | wpa_supplicant_8_lib/mediatek_driver_cmd_nl80211.c:993-1229 | two different tests match the same command only if they are the two sleep forms |
| Dispatcher.FirstHitIs | wpa_supplicant_8_lib/mediatek_driver_cmd_nl80211.c:993-1229 | the chain takes the first matching test, or none if none matches |
| Dispatcher.OrderDoesNotMatter | wpa_supplicant_8_lib/mediatek_driver_cmd_nl80211.c:993-1229 | any two orders of the same enabled tests that keep the sleep forms in order agree on every command |
| Dispatcher.DispatchIsTheHit | wpa_supplicant_8_lib/mediatek_driver_cmd_nl80211.c:993-1229 | a branch is taken iff its own test matches; the bare sleep form yields to the other |
| Dispatcher.BoundedLoop | wpa_supplicant_8_lib/mediatek_driver_cmd_nl80211.c:993 | C's comparison loop bounded by the pattern's length accepts exactly the commands that start with the pattern |
| Dispatcher.UnboundedLoop | wpa_supplicant_8_lib/mediatek_driver_cmd_nl80211.c:1016 | without a bound it accepts exactly the pattern |
| Dispatcher.FirstTests | wpa_supplicant_8_lib/mediatek_driver_cmd_nl80211.c:993-1057 | for each of the first ten literal patterns: its branch is taken iff its own comparison succeeds, whatever stands before it |
| Dispatcher.MiddleTests | wpa_supplicant_8_lib/mediatek_driver_cmd_nl80211.c:1066-1128 | the same for the next ten |
| Dispatcher.LastTests | wpa_supplicant_8_lib/mediatek_driver_cmd_nl80211.c:1134-1222 | the same for the last nine; the bare sleep form also needs the longer one to fail |
| Dispatcher.DriverCmd | wpa_supplicant_8_lib/mediatek_driver_cmd_nl80211.c:993-1229 | the if-chain with its literal patterns and lengths takes the branch of the specification |
| Dispatcher.CaseDoesNotMatter | wpa_supplicant_8_lib/mediatek_driver_cmd_nl80211.c:993-1178 | letter case never changes the branch of a command that took a case-insensitive one |
| Mcc.ChainDistinct | wpa_supplicant_8_lib/mediatek_driver_cmd_nl80211.c:1190-1206 | a null-terminated list has no repeated node, so the walks end |
| Mcc.SwitchOn | wpa_supplicant_8_lib/mediatek_driver_cmd_nl80211.c:1191-1195 | one turn sets the channel count to 2, adds the flag bits and sets the P2P setting to 1 |
| Mcc.SwitchOff | wpa_supplicant_8_lib/mediatek_driver_cmd_nl80211.c:1200-1205 | one turn sets the channel count to 0, removes the flag bits and no other, and sets the P2P setting to 0 |
| Mcc.WalkOn | wpa_supplicant_8_lib/mediatek_driver_cmd_nl80211.c:1190-1196 | every interface of the list is switched on and every link kept |
| Mcc.WalkOff | wpa_supplicant_8_lib/mediatek_driver_cmd_nl80211.c:1199-1206 | every interface of the list is switched off and every link kept |
| Mcc.AtoiIsZero | wpa_supplicant_8_lib/mediatek_driver_cmd_nl80211.c:1188 | `atoi` is 0 iff the number has no digit but 0, whatever the blanks, the sign and the text behind it |
| Mcc.SettingExists | wpa_supplicant_8_lib/mediatek_driver_cmd_nl80211.c:1178-1185 | a command sets something iff it starts with `mcc` in any letter case and contains a space |
| Mcc.SettingOfText | wpa_supplicant_8_lib/mediatek_driver_cmd_nl80211.c:1182-1189 | what it sets is read behind its first space: on iff the number there has a digit other than 0 |
| Mcc.SettingOfNumber | wpa_supplicant_8_lib/mediatek_driver_cmd_nl80211.c:1178-1188 | `mcc n` in any letter case reaches the branch and means off for 0, on for any other number |
| Mcc.McCommand | wpa_supplicant_8_lib/mediatek_driver_cmd_nl80211.c:1178-1212 | -1 and no change without a driver or an argument, else 0 and the setting on every interface |
| Mcc.RunCommands | wpa_supplicant_8_lib/mediatek_driver_cmd_nl80211.c:1178-1212 | a run of commands has on every interface the effect of its last effective one alone, links and other flag bits kept |
| Bits.BitRangeMeaning | wpa_supplicant_8_lib/mediatek_driver_nl80211.h:28 | BITS(m,n) has exactly the bits m to n |
| Bits.MaskRecoversIndex | wpa_supplicant_8_lib/mediatek_driver_cmd_nl80211.c:299-300 | tagging an index below 2^24 with any version byte and masking gives the index back |
| Bits.DecoderIgnoresVersion | wpa_supplicant_8_lib/mediatek_driver_cmd_nl80211.c:299-332 | the reply decoder depends on the command alone: 0x10, 0x12 and 0x20 each have their own |
| JavaText.HexCharMeaning | ril/telephony/java/com/android/internal/telephony/MediaTekRIL.java:220-226 | a character reads as a digit iff it is that digit's hexadecimal character in either case |
| JavaText.HexStringToBytes | ril/telephony/java/com/android/internal/telephony/MediaTekRIL.java:204-218 | the in-place loop equals the pairwise decoder, null for null, and throws on a bad character or an odd length |
| JavaText.HexDecodeInvertsSpelling | ril/telephony/java/com/android/internal/telephony/MediaTekRIL.java:204-226 | the reader accepts exactly the hexadecimal spellings of byte sequences, mixed case included, and returns the bytes spelled |
| JavaText.RepairFixesOnlyBroken | ril/telephony/java/com/android/internal/telephony/MediaTekRIL.java:258 | decoding changes a text iff it has an unpaired surrogate |
| JavaText.RepairMeaning | ril/telephony/java/com/android/internal/telephony/MediaTekRIL.java:258 | unit by unit, exactly the unpaired surrogates become U+FFFD |
| JavaText.EncodingOrder | ril/telephony/java/com/android/internal/telephony/MediaTekRIL.java:258 | big-endian puts the high byte of every unit first, little-endian the low one |
| JavaText.Utf16RoundTrip | ril/telephony/java/com/android/internal/telephony/MediaTekRIL.java:258 | big-endian UTF-16 decodes to the text iff the text is well formed and does not start like a byte-order mark |
| JavaText.MarkedRoundTrip | ril/telephony/java/com/android/internal/telephony/MediaTekRIL.java:258 | behind FE FF big-endian, and behind FF FE little-endian bytes decode to the text iff it is well formed |
| JavaText.OddByteIsReplaced | ril/telephony/java/com/android/internal/telephony/MediaTekRIL.java:258 | an odd last byte becomes U+FFFD behind the units before it |
| JavaText.ScalarComesBack | ril/telephony/java/com/android/internal/telephony/MediaTekRIL.java:258 | the units of a Unicode scalar value give the value back |
| JavaText.Utf16WellFormed | ril/telephony/java/com/android/internal/telephony/MediaTekRIL.java:258 | the UTF-16 form of every Unicode text is well formed |
| JavaText.Ucs2NameRoundTrip | ril/telephony/java/com/android/internal/telephony/MediaTekRIL.java:254-262 | a uCs2 name decodes to its text iff the text is well formed and markless |
| JavaText.PlainNameIsKept | ril/telephony/java/com/android/internal/telephony/MediaTekRIL.java:254-262 | a name without the prefix, or no name, is kept |
| JavaText.BadHexThrows | ril/telephony/java/com/android/internal/telephony/MediaTekRIL.java:254-262 | a name with the prefix throws iff what follows spells no byte sequence |
| JavaText.TextNameRoundTrip | ril/telephony/java/com/android/internal/telephony/MediaTekRIL.java:654-662 | every Unicode text comes back from its uCs2 name iff it does not start with U+FEFF or U+FFFE |
| OperatorInfos.TransformKeeps | ril/telephony/java/com/android/internal/telephony/MediaTekRIL.java:287-314 | numeric code and state are kept, and up to capability 3 the names are those of a single operator |
| OperatorInfos.TransformAboveThree | ril/telephony/java/com/android/internal/telephony/MediaTekRIL.java:303-306 | above capability 3 both names of the capability-3 result get a space and the technology behind them (`null` if missing), and a missing name throws |
| OperatorInfos.TransformPlainName | ril/telephony/java/com/android/internal/telephony/MediaTekRIL.java:287-314 | up to capability 3 a plain name is kept with its short name, unless it is empty or the numeric code, when both come from the table |
| OperatorInfos.Ucs2NameIsShown | ril/telephony/java/com/android/internal/telephony/MediaTekRIL.java:253-314 | at every capability a uCs2 name of a text reaches the caller as that text, or as the table\'s name if the text is empty or the numeric code; above 3 with a space and the access technology behind both names, and a missing name throws |
| OperatorInfos.LacSliceInRange | ril/telephony/java/com/android/internal/telephony/MediaTekRIL.java:244-285 | with valid area codes, four times the number of earlier named groups leaves four characters to read |
| OperatorInfos.LacValidMeaning | ril/telephony/java/com/android/internal/telephony/MediaTekRIL.java:244-247 | area codes are in use iff there are four characters per group and at least one group |
| OperatorInfos.NamedCounts | ril/telephony/java/com/android/internal/telephony/MediaTekRIL.java:264-277 | the running index counts the earlier groups that have a name |
| OperatorInfos.LacOfMeaning | ril/telephony/java/com/android/internal/telephony/MediaTekRIL.java:270-276 | the four characters that fall to a group stand behind four for every earlier named group |
| OperatorInfos.DecodeInPlace | ril/telephony/java/com/android/internal/telephony/MediaTekRIL.java:254-262 | the name is replaced by its decoded form and nothing else changes |
| OperatorInfos.LookupInPlace | ril/telephony/java/com/android/internal/telephony/MediaTekRIL.java:287-293 | an empty or merely numeric name is replaced, with the short name, from the table; nothing else changes |
| OperatorInfos.ResponseOperator | ril/telephony/java/com/android/internal/telephony/MediaTekRIL.java:638-673 | exactly when it succeeds, and that it then leaves the same names as the list decoder and keeps the rest |
| OperatorInfos.OneGroup | ril/telephony/java/com/android/internal/telephony/MediaTekRIL.java:253-314 | one turn equals the group function, consumes an area code iff the group is named, and touches only its five strings |
| OperatorInfos.ResponseOperatorInfos | ril/telephony/java/com/android/internal/telephony/MediaTekRIL.java:228-318 | the loop succeeds iff the length is a multiple of five and every group is fine, and then equals the group function mapped over the original groups |
| Solicited.VendorRepliesNeverSucceed | ril/telephony/java/com/android/internal/telephony/MediaTekRIL.java:371-516 | the four vendor requests complete with an exception even on success |
| Solicited.Ril.constructor | ril/telephony/java/com/android/internal/telephony/MediaTekRIL.java:196-202 | starts with nothing sent, pending or delivered |
| Solicited.Ril.Enqueue | ril/telephony/java/com/android/internal/telephony/MediaTekRIL.java:780-786 | a sent request waits under a fresh serial |
| Solicited.Ril.Deliver | ril/telephony/java/com/android/internal/telephony/MediaTekRIL.java:521-524 | one message iff the request has one |
| Solicited.Ril.ProcessSolicited | ril/telephony/java/com/android/internal/telephony/MediaTekRIL.java:352-527 | the in-place code equals the step of the machine and answers whether the serial was pending |
| Solicited.PendingMeaning | ril/telephony/java/com/android/internal/telephony/MediaTekRIL.java:356-367 | over every run, a request is pending iff it was sent and no reply to it has come since |
| Solicited.DeliveredByFirstAnswer | ril/telephony/java/com/android/internal/telephony/MediaTekRIL.java:352-527 | over every run, a message is delivered iff this is the first reply to its request, with exactly the outcome that reply calls for |
| Solicited.DeliveredOutcome | ril/telephony/java/com/android/internal/telephony/MediaTekRIL.java:371-526 | over every run and without reference to the code: a value iff the first reply had no error and decoded to it; an error iff it had one, with that number and the decoded payload or null for none; an exception iff decoding was tried and failed; codes 1 to 108 are decoded, 220 as 51 on e73 |
| Solicited.Conservation | ril/telephony/java/com/android/internal/telephony/MediaTekRIL.java:352-527 | sent = pending + answered at all times, and no request is answered or delivered twice |
| Unsolicited.Parcel.ReadInt | ril/telephony/java/com/android/internal/telephony/MediaTekRIL.java:533-534 | the little-endian int at the cursor, which moves past it |
| Unsolicited.Parcel.WriteInt | ril/telephony/java/com/android/internal/telephony/MediaTekRIL.java:627-632 | overwrites four bytes at the cursor and nothing else |
| Bytes.LowestByteFirst | ril/telephony/java/com/android/internal/telephony/MediaTekRIL.java:627-632 | the four bytes of a word, lowest first, give the word back |
| Unsolicited.SetCallIndication | ril/telephony/java/com/android/internal/telephony/MediaTekRIL.java:675-697 | sends mode 0 with the call and sequence numbers, or throws on a short or non-numeric message |
| Unsolicited.ProcessUnsolicited | ril/telephony/java/com/android/internal/telephony/MediaTekRIL.java:531-636 | it throws exactly when a listed message does not decode, and otherwise sends out exactly the specified effects in order |
| Unsolicited.OverwriteKeepsPayload | ril/telephony/java/com/android/internal/telephony/MediaTekRIL.java:624-634 | the rewritten parcel has the same length, the new code, and every other byte unchanged |
| Unsolicited.ListedHasRoom | ril/telephony/java/com/android/internal/telephony/MediaTekRIL.java:536-576 | a listed code is never read from a short parcel, so the rewrite never grows it |
| Unsolicited.RewriteIdentity | ril/telephony/java/com/android/internal/telephony/MediaTekRIL.java:614-619 | rewriting a code by itself is the identity on the buffer |
| Unsolicited.TranslationStaysInside | ril/telephony/java/com/android/internal/telephony/MediaTekRIL.java:536-622 | only listed codes are translated, and a translated message is never translated again into another code |
| Unsolicited.TranslationMeaning | ril/telephony/java/com/android/internal/telephony/MediaTekRIL.java:536-622 | the listed codes and the code each is given, in numbers |
| Unsolicited.DecodesMeaning | ril/telephony/java/com/android/internal/telephony/MediaTekRIL.java:536-576 | which decoder reads which message, code by code |
| Unsolicited.IncomingCall | ril/telephony/java/com/android/internal/telephony/MediaTekRIL.java:588-597 | an incoming call decodes iff it has five strings with numbers in the first, fourth and fifth, and then sends request 2036 with 3, 0 and the first and fifth number before it is forwarded as 1001 |
| Unsolicited.SuperclassSees | ril/telephony/java/com/android/internal/telephony/MediaTekRIL.java:531-636 | the superclass is called at most once and last; on the bytes it is given, the position is the original one, 3004 and 3014 read 1001, 3022 reads 1002, 3007, 3015, 3027 and 3028 read 1019, other vendor codes but 3017 never arrive, every other code reads as itself, and no other byte differs |
| Unsolicited.RadioStateForwarded | ril/telephony/java/com/android/internal/telephony/MediaTekRIL.java:740-765 | a radio-state message is forwarded byte for byte, after both GPRS requests when the radio is not off |
| BootImage.ReadRamdisk | pack.pl:32-37 | the line-by-line loop rebuilds the file exactly |
| BootImage.LineLength | pack.pl:34-36 | a line ends at its first newline or at the end of the file |
| BootImage.GenHeader | pack.pl:52-56 | the header has 512 bytes for every name and length |
| BootImage.PackLayout | pack.pl:52-56 | magic, length, padded name, filler and payload stand at their offsets |
| BootImage.ImageBytes | pack.pl:52-56 | every byte of the image: 88 16 88 58, the length lowest byte first, the name padded with NULs or cut to 32, 472 times FF, the payload |
| BootImage.RepackBoot | pack.pl:29-50 | the new file is the header of the file's length in front of the file |
| BootImage.UnpackUndoesPack | pack.pl:39-56 | name and payload come back iff the name has at most 32 bytes and no trailing NUL and the length is below 2^32 |
| BootImage.PeelUndoesPackAll | pack.pl:29-56 | k packings peel off in k steps iff every name is packable and every size stays below 2^32 |
| UsbGadget.CarefulWhileDisabled | rootdir/root/init.mt6582.usb.rc:34-42 | without touching the enable file, any script is careful on a disabled gadget |
| UsbGadget.DisableReconfigureEnable | rootdir/root/init.mt6582.usb.rc:34-483 | every disable, reconfigure, enable script that pairs a product with its own vendor and functions is careful from every state |
| UsbGadget.RowIsConsistent | rootdir/root/init.mt6582.usb.rc:33-483 | in every trigger the product owns the functions and vendor written, adbd is started iff the functions include adb, one serial instance is set up iff they include acm and no port index is given, the CD-ROM iff the configuration is a bicr one, and the class is 2 for acm, 224 for rndis and eem |
| UsbGadget.MtpRowWritten | rootdir/root/init.mt6582.usb.rc:85-284 | the literal product id and function names of each mtp trigger |
| UsbGadget.PtpRowWritten | rootdir/root/init.mt6582.usb.rc:144-305 | the same for the ptp triggers |
| UsbGadget.NetRowWritten | rootdir/root/init.mt6582.usb.rc:203-462 | the same for the rndis and eem triggers |
| UsbGadget.AccessoryRowWritten | rootdir/root/init.mt6582.usb.rc:307-362 | the same for the accessory and audio triggers |
| UsbGadget.SpecialRowWritten | rootdir/root/init.mt6582.usb.rc:375-483 | the same for the bicr, acm_third and gs3 triggers |
| UsbGadget.PlainRowWritten | rootdir/root/init.mt6582.usb.rc:34-263 | the same for the acm, adb and mass_storage triggers |
| UsbGadget.ScriptIsCareful | rootdir/root/init.mt6582.usb.rc:27-483 | every trigger is careful from every state |
| UsbGadget.RunIsSafe | rootdir/root/init.mt6582.usb.rc:27-483 | every reachable state, also inside a trigger, has a careful rest and, if enabled, a consistent gadget |
| UsbGadget.ReconfiguresOnlyWhileDisabled | rootdir/root/init.mt6582.usb.rc:27-483 | at every step of every run, vendor, product, functions and class are written only while disabled |
| UsbGadget.ProductDeterminesFunctions | rootdir/root/init.mt6582.usb.rc:33-483 | across all runs an enabled product id determines the function list, and the accessory vendor appears exactly for accessory products |
| UsbGadget.TriggerOutcome | rootdir/root/init.mt6582.usb.rc:27-483 | what each whole trigger leaves in every gadget file, serial and CD-ROM file, adbd and both properties |
| UsbGadget.RunSettles | rootdir/root/init.mt6582.usb.rc:27-483 | between triggers the gadget is that of the chosen configurations in order |
| UsbGadget.SettledAdb | rootdir/root/init.mt6582.usb.rc:27-31 | adbd runs iff an adb configuration came since the last `none`; the gadget shows adb iff the latest enabling one has it |
| UsbGadget.AdbdMatchesIff | rootdir/root/init.mt6582.usb.rc:27-483 | between triggers adbd matches the enabled functions iff no adb configuration since the last `none` was replaced by one without adb |
| UsbGadget.ThroughNoneMatches | rootdir/root/init.mt6582.usb.rc:26-31 | if every switch passes through `none`, adbd always matches and no device class lingers |
| UsbGadget.AdbdLingers | rootdir/root/init.mt6582.usb.rc:45-91 | counterexample without `none`: adb then mtp leaves adbd running behind an mtp gadget |

## Left out

- The error value that the two brightness setters return from a failed write: it depends on the file system alone.
- `close_lights` and the -EINVAL of `open_lights` for an unknown name: no effect on the shared state.
- The statistics reply decoder (mediatek_driver_cmd_nl80211.c:62-165): field copies of the same shape as the link-detect decoder.
- The bodies of the driver commands other than `mcc` and the two reports (sw-command words, country, start/stop, P2P sigma helpers, WAPI): calls into foreign code.
- Netlink transport and attribute parsing: only the attribute table they hand back is modelled.
- The extra format arguments of the two hexadecimal loops: they do not change the text.
- Mcc.McCommand: `atoi` beyond the range of an int is undefined in C and read here as the mathematical number.
- The number of replacement characters that an odd last byte gives right behind a truncated surrogate pair: library-dependent.
- Clearing the `gsm.cops.lac` property in `responseOperatorInfos`, logging, and the commented-out name lookups.
- Wrap-around of the RIL serial counter, and the superclass's own decoders and reactions.
- Triggers on `sys.usb.bicr`, `sys.usb.charging`, the port mode and boot, and gadget writes from other rc files: they touch none of the enable, vendor, product, functions and class files; the CD-ROM files are those of the configuration triggers alone.
- Audio, Bluetooth, xlog, makefiles, overlays, sepolicy, key layouts and the other init scripts: static data or wrappers over code that is not here.
