# pulsarctl lighting core in Dafny

pulsarctl sets the lighting of the Galax Xanova Pulsar XK400 keyboard. It
sends one 65-byte HID feature report per command. This project models
three parts of it and proves properties about them:

- **The report encoder** (`set_backlight`, `set_keylight`, `set_brightness`
  in `src/Pulsar.cpp`). Each report has a class byte at index 4 (0x02
  keylight, 0x03 backlight) and 0x01 at index 5. Next come the mode bytes
  and a speed or level byte. The XOR of the payload (bytes 4-9, or 4-8 for
  keylight) goes at index 63. Everything else is zero. Speeds 0-255 become
  device registers through C++ integer formulas. Those formulas truncate
  toward zero, so the model writes that division out (`Encoding.CppDiv`).
  `Report.Decode` reads the report layout back into a `Frame`. Each builder
  is proved to produce a report that decodes to its own command, and
  `Report.DecodeInjective` proves that a report is determined by its frame.
- **The device session** (`Pulsar::Pulsar`, `Pulsar::~Pulsar` and the three
  setters). The HID library is an oracle object, `Hid.HidApi`. Its
  results are fixed when it is built, and it records every call in a ghost
  trace. The constructor's expected calls and result are stated by
  `Device.OpenProtocol`. The lemmas about it prove that hid_exit is called
  exactly once, as the last call, when opening fails after a successful
  hid_init, and not at all otherwise. They also prove that only the first
  keyboard entry on interface 2, in bus order, is tried. `Hid.Balance` counts successful inits minus exits over a trace.
  Opening adds 1 to it exactly on success, and the destructor takes that 1
  away again.
- **Command-line resolution** (the `Cmdline` constructor after
  `parse_args`). Mode names are looked up in the two name tables. The
  try/catch is modelled handler by handler. The fields of the resulting
  object are the datatype `Cmdline.Settings`.

Two details follow the code exactly. `RUNOUTSIG` takes the implicit value
4, since it follows `RIPPLE = 3`. The keylight speed byte for speed 255 is
0x0A, because its step nibble is `5 + 255/(-51) = 0`. The byte for speed 0
is 0x5A. The backlight mode code is copied from the raw memory of a
`uint16_t`. The model assumes a little-endian host, so the low byte goes to
index 6 and the high byte to index 7.

Files: `wrappers.dfy` (Option/Result/Outcome), `pulsar_types.dfy` (mode
enumerations and their codes), `checksum.dfy` (XOR fold),
`report.dfy` (report layout and decoding), `encoding.dfy` (speed formulas
and report builders), `hid.dfy` (HID oracle and call trace),
`device.dfy` (the session), `cmdline.dfy` (command-line resolution).

## Model

| member | source | states |
|---|---|---|
| PulsarTypes.ModeCode | src/include/Pulsar.hpp:99-102 | The class byte is 0x02 or 0x03, and 0x02 exactly for the keylight class |
| PulsarTypes.KeylightCode | src/include/Pulsar.hpp:36-44 | Keylight codes are below 8, never 5, and each decodes back to its mode |
| PulsarTypes.KeylightCodeInverse | src/include/Pulsar.hpp:36-44 | A byte names a keylight mode if and only if it is that mode's code (0,1,2,3,4,6,7) |
| PulsarTypes.ModeListsComplete | src/include/Pulsar.hpp:36-65 | The 12 backlight and 7 keylight enumerators are each listed exactly once |
| PulsarTypes.BacklightCode | src/include/Pulsar.hpp:52-65 | Every backlight code, split into low and high byte, decodes back to its mode |
| PulsarTypes.BacklightBytesInverse | src/Pulsar.cpp:69 | Bytes 6 and 7 name a mode if and only if they are its 16-bit code in little-endian order |
| PulsarTypes.BacklightCodeInjective | src/include/Pulsar.hpp:52-65 | Distinct backlight modes have distinct codes |
| Checksum.XorFold | src/Pulsar.cpp:72 | The left fold of XOR from 0, in accumulate's order, equals the fold from the front, so the grouping of the bytes does not matter |
| Checksum.XorFoldAppend | src/Pulsar.cpp:72 | The checksum of a concatenation is the XOR of the two checksums |
| Checksum.XorFoldPermutation | src/Pulsar.cpp:72 | The checksum depends only on the multiset of payload bytes, not their order |
| Checksum.ChecksumCancels | src/Pulsar.cpp:72 | A byte equals the payload's checksum if and only if the payload followed by it folds to 0 |
| Report.DecodedChecksumCancels | src/Pulsar.cpp:72 | In every decodable report, byte 63 is the XOR of the payload it covers (5 bytes for keylight, 6 otherwise) and so cancels it |
| Report.DecodeInjective | src/Pulsar.cpp:63-107 | Two reports that carry the same command are byte-for-byte equal |
| Encoding.CppDiv | src/Pulsar.cpp:70 | The quotient is truncated toward zero: the remainder is smaller than the divisor in magnitude and never has the opposite sign of the dividend |
| Encoding.BacklightSpeedRegister | src/Pulsar.cpp:70 | The C++ truncating expression equals 15 - (14*speed)/255 over naturals and stays in 1..15 |
| Encoding.BacklightRegisterAntitone | src/Pulsar.cpp:70 | The backlight register never rises with speed, from 15 at speed 0 to 1 at speed 255 |
| Encoding.KeylightSpeedStep | src/Pulsar.cpp:86 | The C++ truncating expression equals 5 - speed/51 and stays in 0..5 |
| Encoding.KeylightStepAntitone | src/Pulsar.cpp:86 | The step never rises with speed, is 5 exactly for speeds 0-50 and 0 exactly for 255 |
| Encoding.KeylightSpeedByte | src/Pulsar.cpp:86 | Byte 8 carries the step in its high nibble and 0xA in its low nibble |
| Encoding.KeylightSpeedByteEnds | src/Pulsar.cpp:86 | Byte 8 is 0x5A at speed 0 and 0x0A at speed 255 |
| Encoding.FillBacklight | src/Pulsar.cpp:65-72 | The report is 65 bytes: class 0x03, 0x01, the mode code little-endian, 0x00, the speed register, the XOR of bytes 4-9 at 63, and zeros elsewhere. It decodes to exactly this backlight command |
| Encoding.FillKeylight | src/Pulsar.cpp:80-88 | The report is 65 bytes: class 0x02, 0x01, 0x04, the mode code, the speed byte, the XOR of bytes 4-8 at 63, and zeros elsewhere. It decodes to exactly this keylight command |
| Encoding.FillBrightness | src/Pulsar.cpp:96-103 | The report is 65 bytes: 03 01 02 00 00 and the level, with the level itself as checksum. It decodes to exactly this brightness command |
| Encoding.BrightnessChecksumIsLevel | src/Pulsar.cpp:98-103 | The header bytes of a brightness report cancel out, so its checksum is the level |
| Encoding.BrightnessIsNoBacklightMode | src/Pulsar.cpp:100 | Selector bytes 02 00 are the code of no backlight mode, so a brightness report is never a mode change |
| Hid.MatchingFilters | src/Pulsar.cpp:36 | Enumeration returns exactly the attached entries with the requested vendor and product id |
| Hid.MatchingAppend | src/Pulsar.cpp:36 | Enumeration keeps bus order: the matches of a prefix come before the matches of the rest |
| Device.FirstWithInterface | src/Pulsar.cpp:42-48 | The scan finds the first entry on the interface: all earlier entries differ. It finds none exactly when no entry matches |
| Device.ControlPathFound | src/Pulsar.cpp:36-48 | The path tried is that of the first attached keyboard entry on interface 2 in bus order. No path is tried exactly when no attached keyboard entry is on interface 2 |
| Device.OpenProtocol | src/Pulsar.cpp:30-54 | The calls and the result of Pulsar::Pulsar for each oracle outcome. It fails with InitFailed exactly when hid_init fails, and with NotPresent exactly when init works and no keyboard is attached. On success it holds the control path, which was openable |
| Device.OpenProtocolExits | src/Pulsar.cpp:30-54 | Opening starts with hid_init. It calls hid_exit exactly once, as its last call, exactly when it fails after hid_init succeeded, and never otherwise. It succeeds exactly when init succeeds and the first interface-2 path opens |
| Device.OpenProtocolBalanced | src/Pulsar.cpp:30-54 | Opening leaves one more successful init than exits exactly when it succeeds, and none otherwise |
| Device.Pulsar.Unopened | src/Pulsar.cpp:30-31 | A session starts with a null handle |
| Device.Pulsar.Create | src/Pulsar.cpp:30-54 | The constructor makes exactly the calls of the opening protocol. It returns its error, or a fresh session holding the opened handle |
| Device.Pulsar.OpenControlInterface | src/Pulsar.cpp:42-48 | The loop opens the first entry on interface 2 and stops there whether or not the open worked. It makes no call when no entry matches |
| Device.Pulsar.Destroy | src/Pulsar.cpp:56-61 | The destructor closes the handle, then calls hid_exit, and nulls the handle. The init/exit balance drops by one |
| Device.Pulsar.SetBacklight | src/Pulsar.cpp:63-76 | Exactly one feature report is sent on the session's handle, and it carries this backlight command. A negative status is a write error |
| Device.Pulsar.SetKeylight | src/Pulsar.cpp:78-92 | Exactly one feature report is sent on the session's handle, and it carries this keylight command. A negative status is a write error |
| Device.Pulsar.SetBrightness | src/Pulsar.cpp:94-107 | Exactly one feature report is sent on the session's handle, and it carries this brightness command. A negative status is a write error |
| Device.RunCommand | src/main.cpp:31-57 | A failed opening makes only the opening calls. A successful one is followed by exactly one report carrying the command's frame, then hid_close and hid_exit, also after a failed send. hid_init and hid_exit stay balanced. The outcome is the opening error, a write error, or success |
| Cmdline.BacklightName | src/Cmdline.cpp:25-38 | Every backlight mode is listed in BACKLIGHT_MAP under its name |
| Cmdline.KeylightName | src/Cmdline.cpp:40-48 | Every keylight mode is listed in KEYLIGHT_MAP under its name |
| Cmdline.BacklightMapBijective | src/Cmdline.cpp:25-38 | BACKLIGHT_MAP maps names to modes one-to-one and onto |
| Cmdline.KeylightMapBijective | src/Cmdline.cpp:40-48 | KEYLIGHT_MAP maps names to modes one-to-one and onto |
| Cmdline.Construct | src/Cmdline.cpp:93-112 | It fails with "Invalid operation mode" exactly for an unknown mode name. A missing speed keeps the subcommand and mode but empties the level. Brightness sets only the level. With no subcommand it returns normally with nothing assigned |
| Cmdline.ConstructCorrected | src/Cmdline.cpp:105-111 | With the no-subcommand error escaping, every successful result has a subcommand, and the field that subcommand needs is set |

## Left out

- The HID library is not modelled. `hid_init`, `hid_enumerate`, `hid_open_path`, `hid_send_feature_report`, `hid_close` and `hid_exit` are foreign USB I/O. `Hid.HidApi` replaces them with fixed statuses, a device list and a set of openable paths.
- The enumeration list is never released with `hid_free_enumeration`. This leak is not modelled. The linked list of `hid_device_info` is a sequence here.
- argparse is not modelled: parser construction, help text, range checking of `scan<'u', uint8_t>` and errors raised by `parse_args`. Its results are the input `Cmdline.ParsedArgs`.
- Fields that the `Cmdline` constructor never assigns are indeterminate in C++. Here they are `None`.
- From `src/main.cpp`, only the open/command/destructor sequence is modelled, in `Device.RunCommand`. Exit codes and error printing are left out. So are `Subcommand::PLAY_PAUSE` and `toggle_effect`, which are declared nowhere. main passes `level.value_or(0)` as the speed, so the header default 0xFF is never reached from the command line. `RunCommand` therefore takes the speed explicitly.
- Host byte order is not modelled. The copy of the `uint16_t` mode code assumes a little-endian host.
- Error messages are reduced to error kinds (`SessionError`, `CmdlineError`).
- `Report.Decode` is not a function of the program. It is a reading of the report layout the builders write, and it serves as their independent partner.
- Device.Pulsar.Create: its contract gives the exact call sequence but not the init/exit balance. The balance follows from `Device.OpenProtocolBalanced`, and `Device.RunCommand` combines the two.

## Findings

| source | as written | input that shows it | evidently intended | confidence | as-written member | corrected member |
|---|---|---|---|---|---|---|
| src/Cmdline.cpp:105-111 | `std::invalid_argument("No subcommand specified")` derives from `std::logic_error`. The handler at line 110 catches it, so the constructor returns normally with `subcommand` unassigned, and main then switches on an indeterminate value | running the program with no subcommand (`ParsedArgs.NoSubcommand`) | the error leaves the constructor, and main prints it and returns -1 | high; not executed | Cmdline.Construct | Cmdline.ConstructCorrected |

No other part of the model consumes a `Cmdline`, so the corrected constructor stands on its own.
