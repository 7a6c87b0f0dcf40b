# Verified models of rt-tests 2.10 and the RTEMS 6.1 cpukit

This project models, in Dafny, the parts of the two code bases whose correctness is not
visible from one function body, and proves what those parts are for.

- **pi_stress** (`PiStress*.dfy`): any number of groups of three threads and the main thread,
  with five barriers, a mutex, a `loop` flag and its mutex per group, two global barriers and one
  `shutdown` flag. A state is advanced one statement at a time; a run is any sequence of enabled
  actions, so a statement about every run covers every interleaving and every choice of the
  barriers' serial threads. A thread that reaches a barrier call first arrives, which is recorded;
  the barrier passes when as many threads are inside the call as it was initialised for.
- **CRC-24Q** (`Gf2.dfy`, `Crc24q.dfy`, `Crc24qTheorems.dfy`): the 256-entry table and the byte
  update on a 32-bit register, against polynomial division over GF(2) by 0x1864CFB.
- **Base64** (`Base64.dfy`, `Base64Decoding.dfy`, `Base64Encoding.dfy`, `Base64Tables.dfy`): the
  streaming encoder with word breaks and two alphabets, the decoder that takes one character at a time and writes
  into a bounded buffer, and the round trip.
- **The FTP server** (`FtpAscii.dfy`, `FtpTaskPool.dfy`, `FtpSockets.dfy`): ASCII transfers over
  arbitrary chunks, the ring of free session tasks under every interleaving, and the ownership of
  data sockets over every sequence of commands.
- **The kernel printf** (`VprintfNumber.dfy`, `VprintfLayout.dfy`, `VprintfText.dfy`,
  `VprintfFormat.dfy`, `VprintfMeaning.dfy`): digit generation into the conversion buffer, the layout of a numeric
  directive, reading the text back, characters, strings and dumps, and the scan of the whole format.
- **CPU lists** (`CpuList.dfy`, `CpuListText.dfy`): merging ranges, counting them, printing them,
  and making the list of the other CPUs by reading the printed text (`Decimals.dfy` has the decimal
  numbers inside a text).
- **rt-migrate-test** (`MigrateTest.dfy`): main and any number of tasks between two barriers.
- **cyclictest** (`Cyclictest.dfy`): the absolute deadline on its grid of intervals, and the
  differences of two times in int arithmetic.

`CInt.dfy` has the conversion to a 32-bit int, `Octets.dfy` the bits of an octet and
`Sequences.dfy` a fact about concatenation, for the modules that share them.

`dafny verify dfyconfig.toml` checks everything.

## Where the code and its promises differ

- `_Base64_Encode` is documented to break the line after the word length
  (`rtems-6.1/cpukit/include/rtems/base64.h:70`). The code breaks when another quantum would reach
  the word length: a line has the word length only if that is four, otherwise up to four
  characters less, and with a word length beyond 0x7FFF_FFFC, which no int multiple of four
  reaches, there is no break at all (`Base64Encoding.FirstLine`).
- A numeric printf directive should emit max(width, prefix + max(precision, digits)) characters.
  With zero padding the precision is overwritten (`rtems-6.1/cpukit/dev/iovprintf.c:328-329`), so
  `%0.8d` of 5 emits one character. `VprintfLayout.LayoutLength` states exactly when the length is
  as promised.
- `add_cpus` links a range that falls into a gap before a node behind that node
  (`rt-tests-2.10/src/sched_deadline/cyclicdeadline.c:854-858`). `CpuList.AddSorted` states exactly
  when the order is kept, `CpuList.GapCounterexample` shows the failure; ascending starts avoid it.
- An unpaired CR at the end of an ASCII STOR is never written
  (`rtems-6.1/cpukit/ftpd/ftpd.c:1110-1121`), so a file comes back from RETR and STOR exactly when
  it does not end in CR.
- An error of `recv` ends STOR like the end of the stream, and the transfer is still reported as
  complete. A transfer reported as complete is the client's whole stream exactly when the last
  `recv` returned 0 (`FtpAscii.CompleteMeansWhole`); `FtpAscii.BrokenConnection` is a failing case.
- In a round of pi_stress the medium thread's arrival at the elevate barrier and the low thread's
  locking of the mutex come in either order (`PiStressArrivals.BothOrders` has a run for each).
  What every run keeps is the order of the other events: loop and start barriers, low locks, locked
  and elevate barriers, low unlocks, high locks, high unlocks, finish barrier
  (`PiStressProgress.RoundOrder`, `PiStressProgress.ElevateUnderLock`).
- `calcdiff` and `calcdiff_ns` convert the seconds to int and subtract in int. Where int wraps
  around, the nanosecond difference of two normalised times is exact if and only if the difference
  of the seconds fits an int; without relying on wrap-around, which C leaves undefined, also both
  seconds must lie in one stretch of 2^32 that the conversion keeps together, and not on both sides
  of 2038 (`Cyclictest.NanosecondDifference`, failing cases in `Cyclictest.DifferenceOverflows`).

## Model

| member | source | states |
|---|---|---|
| `PiStressInvariant.StepKeepsGroup` | rt-tests-2.10/src/pi_tests/pi_stress.c:517-605 | every statement of every thread keeps the group invariant (stage of the round, mutex holders, values of `loop` read, event history, inversion limit) and the stage |
| `PiStressInvariant.PassKeepsGroup` | rt-tests-2.10/src/pi_tests/pi_stress.c:982-1001 | every passing of a group barrier, with any serial thread, keeps the group invariant |
| `PiStressSystem.EverybodyWaits` | rt-tests-2.10/src/pi_tests/pi_stress.c:155-163 | a barrier for all 3n threads and main is full exactly when every thread of every group is in it |
| `PiStressSystem.StepKeepsInv` | rt-tests-2.10/src/pi_tests/pi_stress.c:487-618 | every action of the whole system keeps the system invariant and never clears `shutdown` |
| `PiStressSystem.ReachableInv` | rt-tests-2.10/src/pi_tests/pi_stress.c:155-215 | the invariant holds in every state any run reaches, for any number of groups |
| `PiStressSystem.LoopAgreement` | rt-tests-2.10/src/pi_tests/pi_stress.c:518-532 | in every reachable state the k-th value of `loop` two threads of a group read is the same, and threads that have left the loop left it in the same round, so all go on to the loop barrier or none does |
| `PiStressProgress.RoundOrder` | rt-tests-2.10/src/pi_tests/pi_stress.c:775-843 | the events of a group other than arrivals are complete rounds in the one possible order and the beginning of another; `total` counts the completed rounds and exceeds a limit by at most one |
| `PiStressProgress.ElevateUnderLock` | rt-tests-2.10/src/pi_tests/pi_stress.c:564-591 | in every run the elevate barrier passes only while low holds the mutex, low and medium are inside and high waits for the mutex |
| `PiStressArrivals.OneArrivalPerPassing` | rt-tests-2.10/src/pi_tests/pi_stress.c:982-1001 | in every run every thread has arrived at each of its barriers once for every passing, and once more exactly while it is inside |
| `PiStressArrivals.BothOrders` | rt-tests-2.10/src/pi_tests/pi_stress.c:691-699 | one run in which medium arrives at elevate before low locks in that round, and one in which it arrives after |
| `PiStressProgress.NoGroupStuck` | rt-tests-2.10/src/pi_tests/pi_stress.c:518-605 | in every reachable state each group that is not wholly at a global barrier has a step of its own, or the holder of `shutdown_mtx` can go on |
| `PiStressProgress.NoDeadlock` | rt-tests-2.10/src/pi_tests/pi_stress.c:205-215 | no reachable state is stuck before all threads are past the done barrier; some thread can take a step other than main's idle polling |
| `PiStressTermination.ShutdownStep` | rt-tests-2.10/src/pi_tests/pi_stress.c:541-550 | once `shutdown` is set every action decreases a measure and no group gets more rounds |
| `PiStressTermination.ShutdownEnds` | rt-tests-2.10/src/pi_tests/pi_stress.c:606-617 | once `shutdown` is set every run is finite, a run that cannot go on has all threads exited, and each group completes at most its current round and one more |
| `PiStressLimit.LimitedRuns` | rt-tests-2.10/src/pi_tests/pi_stress.c:518-524 | with a limit on the inversions, any run from the start has at most a number of group and barrier steps given by groups and limit, however long main polls |
| `PiStressCause.ShutdownHasCause` | rt-tests-2.10/src/pi_tests/pi_stress.c:523-524 | in every run in which the duration does not expire, `shutdown` is set only after some group has performed the inversions asked for, and without a limit never |
| `PiStressCause.InversionsPerformed` | rt-tests-2.10/src/pi_tests/pi_stress.c:518-609 | when all threads of such a run have exited, some group has performed exactly one inversion more than asked for |
| `PiStressCause.ExpiryTakesEffect` | rt-tests-2.10/src/pi_tests/pi_stress.c:391-465 | when main finds the duration over, in every run from there the flag is set or main is setting it |
| `PiStressCause.ReporterTurn` | rt-tests-2.10/src/pi_tests/pi_stress.c:391-465 | one turn of main's reporter reads the flag, reports and comes to look at the duration, and changes nothing else |
| `PiStressCause.LeavingSetsFlag` | rt-tests-2.10/src/pi_tests/pi_stress.c:526-609 | a thread that finds `loop` cleared sets the flag under its mutex before it goes to the done barrier |
| `PiStressCause.MainLeavesByFlag` | rt-tests-2.10/src/pi_tests/pi_stress.c:196-210 | main leaves its reporter on the flag and sets it twice more on its way to the done barrier |
| `Gf2.FeedDivides` | rtems-6.1/cpukit/crc/crc24q.c:130-132 | the bit-by-bit shift register computes a quotient and a remainder of polynomial division by the generator |
| `Gf2.RemainderUnique` | rtems-6.1/cpukit/crc/crc24q.c:130-132 | no other polynomial of degree below 24 is a remainder of that division |
| `Gf2.BurstDetected` | rtems-6.1/cpukit/crc/crc24q.c:138-148 | bit strings that differ only in a window of at most 24 bits leave different registers |
| `Gf2.FeedParity` | rtems-6.1/cpukit/crc/crc24q.c:130-132 | the parity of the register is the parity of everything fed into it |
| `Crc24q.TableCorrect` | rtems-6.1/cpukit/crc/crc24q.c:42-128 | each of the 256 table entries is below 2^24 and is what the shift register makes of the eight bits of its index |
| `Crc24q.UpdateIsOnBits` | rtems-6.1/cpukit/crc/crc24q.c:130-132 | the shift, look-up and exclusive-or on 32-bit integers is the update on the bits of the register |
| `Crc24q.ByteStep` | rtems-6.1/cpukit/crc/crc24q.c:130-132 | the low 24 bits after a table update of a byte are those after shifting in its eight bits |
| `Crc24q.SequenceUpdate` | rtems-6.1/cpukit/crc/crc24q.c:138-148 | the loop on a 32-bit integer leaves the bits of the fold of the byte update over the message |
| `Crc24qTheorems.ChecksumIsRemainder` | rtems-6.1/cpukit/crc/crc24q.c:138-148 | for every seed and message the low 24 bits are the one remainder of (seed x^n + message x^24) modulo 0x1864CFB |
| `Crc24qTheorems.UpperByteIgnored` | rtems-6.1/cpukit/crc/crc24q.c:138-148 | the low 24 bits of the result depend only on the low 24 bits of the seed |
| `Crc24qTheorems.UpdateConcat` | rtems-6.1/cpukit/crc/crc24q.c:138-148 | a message may be fed in pieces |
| `Crc24qTheorems.ChecksumLinear` | rtems-6.1/cpukit/crc/crc24q.c:138-148 | the checksum is XOR-linear on messages of the same length |
| `Crc24qTheorems.ChecksumAnnihilates` | rtems-6.1/cpukit/crc/crc24q.c:138-148 | a message followed by the three bytes of its checksum, high byte first, has checksum zero |
| `Crc24qTheorems.BurstsDetected` | rtems-6.1/cpukit/crc/crc24q.c:138-148 | two different messages of the same length that differ only within 24 consecutive bits have different checksums |
| `Crc24qTheorems.OddErrorsDetected` | rtems-6.1/cpukit/crc/crc24q.c:138-148 | two messages of the same length that differ in an odd number of bits have different checksums |
| `Base64.DecodingInverts` | rtems-6.1/cpukit/base64/base64-decode.c:45-77 | the decoding table inverts both encoding alphabets |
| `Base64Tables.EncodingIsTable` | rtems-6.1/cpukit/base64/base64-encode.c:91-113 | the character for a 6-bit value is the entry of the written-out table of the chosen alphabet |
| `Base64Tables.DecodingMeans` | rtems-6.1/cpukit/base64/base64-decode.c:45-77 | what each of the 256 characters is taken for: both alphabets, six white-space characters, the equals sign, and everything else as an error |
| `Base64.Decoder.constructor` | rtems-6.1/cpukit/base64/base64-decode.c:79-85 | the initial control state for a target area |
| `Base64.Decoder.Decode` | rtems-6.1/cpukit/base64/base64-decode.c:87-165 | the in-place step on state, target pointers and buffer refines the step function on values, for every character and every state |
| `Base64Decoding.DecodeAll` | rtems-6.1/cpukit/base64/base64-decode.c:87-165 | a text through the decoder object, character by character, leaves the control and buffer the value-level run leaves, and reports success exactly when every character was one |
| `Base64Decoding.StatusMeans` | rtems-6.1/cpukit/base64/base64-decode.c:94-135 | an error exactly for a foreign character, an overflow exactly when there is no room for the symbol or for the bits it carries over |
| `Base64Decoding.WritesInside` | rtems-6.1/cpukit/base64/base64-decode.c:115-165 | whatever text follows, no byte below the target or from its end on is changed |
| `Base64Decoding.FrozenAfterPad` | rtems-6.1/cpukit/base64/base64-decode.c:106-119 | after a padding character no text writes or advances again |
| `Base64Decoding.DecoderMeaning` | rtems-6.1/cpukit/base64/base64-decode.c:87-165 | a text is accepted throughout exactly when it has no foreign character, no symbol after padding and fits the buffer; the bytes completed are then the octets of the concatenated 6-bit values |
| `Base64Decoding.OctetIsBits` | rtems-6.1/cpukit/base64/base64-decode.c:121-160 | bit k of octet j is bit 8j + k of the 6-bit values written one after the other |
| `Base64Encoding.Encode` | rtems-6.1/cpukit/base64/base64-encode.c:38-89 | the loop emits the specified text of quanta, word breaks and padded rest, and returns its length |
| `Base64Encoding.FirstLine` | rtems-6.1/cpukit/base64/base64-encode.c:61-72 | for every word length where the word breaks fall and when there is none: after how many quanta, and that this is the word length only for four |
| `Base64Encoding.LayoutText` | rtems-6.1/cpukit/base64/base64-encode.c:61-72 | white-space word breaks change neither well-formedness nor the 6-bit values, wherever they fall |
| `Base64Encoding.EncodedText` | rtems-6.1/cpukit/base64/base64-encode.c:50-87 | the output is well-formed text that carries exactly the 6-bit values of the input |
| `Base64Tables.PlainText` | rtems-6.1/cpukit/base64/base64-encode.c:50-87 | the quanta and the rest are the characters of the input's 6-bit values in the chosen alphabet, filled up with equals signs to a multiple of four |
| `Base64Tables.EncodedPlain` | rtems-6.1/cpukit/base64/base64-encode.c:38-89 | without word breaks the output is exactly those characters |
| `Base64Tables.EncodedAlphabet` | rtems-6.1/cpukit/base64/base64-encode.c:38-89 | every character of the output is one of the word break, an equals sign or an entry of the chosen alphabet's table |
| `Base64Encoding.RoundTrip` | rtems-6.1/cpukit/base64/base64-encode.c:38-89 | for every input, alphabet, word length and white-space word break, a decoder with a buffer of exactly the input's size accepts every character and holds the input |
| `Base64Encoding.EncodeThenDecode` | rtems-6.1/cpukit/base64/base64-encode.c:38-89 | the encoder's output fed to a decoder object with an area of the input's size succeeds and leaves the input in the area |
| `FtpAscii.Retrieve` | rtems-6.1/cpukit/ftpd/ftpd.c:831-875 | however the file is read, the client gets the file with LF as CR LF, or a prefix of it if a send falls short, which it does not if sends take what they are given; complete is reported exactly for a whole transfer |
| `FtpAscii.Store` | rtems-6.1/cpukit/ftpd/ftpd.c:1061-1141 | however the stream is cut into chunks and however it ended, the file gets what arrived with CR LF as LF and a final unpaired CR withheld, or a prefix of that if a write falls short; the bare LFs are counted; complete is reported exactly when no write fell short and the file was closed |
| `FtpAscii.CompleteMeansWhole` | rtems-6.1/cpukit/ftpd/ftpd.c:1065-1141 | what arrived stands for the client's whole stream, whatever may have been lost, if and only if the last `recv` returned 0 |
| `FtpAscii.BrokenConnection` | rtems-6.1/cpukit/ftpd/ftpd.c:1065-1141 | a stream cut off by an error of `recv` is reported as complete and stored in part |
| `FtpAscii.ScanRun` | rtems-6.1/cpukit/ftpd/ftpd.c:1087-1107 | the scan stops behind the first CR LF, also one split over two chunks, and counts LFs without CR |
| `FtpAscii.StoreChunk` | rtems-6.1/cpukit/ftpd/ftpd.c:1067-1119 | one buffer brings file, pending CR and count from those of the stream before it to those of the stream with it |
| `FtpAscii.FromNetConcat` | rtems-6.1/cpukit/ftpd/ftpd.c:1072-1081 | what a chunk boundary does: a CR before it is released unless an LF follows |
| `FtpAscii.RetrBytes` | rtems-6.1/cpukit/ftpd/ftpd.c:845-861 | on the bytes: 10 goes out as 13 and 10, every other byte as it is |
| `FtpAscii.StorBytes` | rtems-6.1/cpukit/ftpd/ftpd.c:1088-1117 | on the bytes: 13 and 10 come in as 10, a 13 before anything else stays, one at the very end is withheld, every other byte comes in as it is |
| `FtpAscii.BareBytes` | rtems-6.1/cpukit/ftpd/ftpd.c:1096-1105 | a 10 is counted as bare exactly when no 13 is right before it |
| `FtpAscii.RetrThenStor` | rtems-6.1/cpukit/ftpd/ftpd.c:831-866 | a file survives RETR then STOR exactly when it does not end in CR, never with a warning |
| `FtpAscii.StorThenRetr` | rtems-6.1/cpukit/ftpd/ftpd.c:1061-1122 | a stream survives STOR then RETR exactly when no bare LF is counted and it does not end in CR |
| `FtpAscii.ThereAndBack` | rtems-6.1/cpukit/ftpd/ftpd.c:831-866 | both transfers with independent chunks and all calls complete: the file comes back, with no bare LF, exactly when it does not end in CR |
| `FtpTaskPool.InvKept` | rtems-6.1/cpukit/ftpd/ftpd.c:502-536 | every step of every thread keeps mutual exclusion, the count of filled slots, the slots in motion and the distinctness of sessions |
| `FtpTaskPool.PoolSafety` | rtems-6.1/cpukit/ftpd/ftpd.c:433-536 | in every run filled slots (semaphore, obtainers past the wait, releases not posted) and sessions in use add up to the pool, no session is in two places, head is filled when read and tail is empty when written |
| `FtpTaskPool.FirstInFirstOut` | rtems-6.1/cpukit/ftpd/ftpd.c:502-536 | the ring is a queue: only moving head takes from the front, only moving tail adds at the back, no other step changes it |
| `FtpTaskPool.NeverStuck` | rtems-6.1/cpukit/ftpd/ftpd.c:502-536 | while somebody is inside a call, somebody inside a call can take a step |
| `FtpTaskPool.BlocksOnlyWhenExhausted` | rtems-6.1/cpukit/ftpd/ftpd.c:502-513 | with nobody inside a call, the semaphore counts the sessions not in use |
| `FtpTaskPool.ObtainsUnlessExhausted` | rtems-6.1/cpukit/ftpd/ftpd.c:502-513 | with nobody inside a call, a thread gets past the wait if and only if not all sessions are in use |
| `FtpTaskPool.ObtainAlone` | rtems-6.1/cpukit/ftpd/ftpd.c:502-513 | an uninterrupted obtain hands out the session at the front of the queue of free ones and leaves the others |
| `FtpTaskPool.ReleaseAlone` | rtems-6.1/cpukit/ftpd/ftpd.c:527-536 | an uninterrupted release puts the session at the end of that queue |
| `FtpSockets.BindLoop` | rtems-6.1/cpukit/ftpd/ftpd.c:656-672 | binding succeeds exactly when one of nine attempts binds and all before it found the address in use |
| `FtpSockets.BindAttempts` | rtems-6.1/cpukit/ftpd/ftpd.c:656-672 | eight attempts that find the address in use may be followed by a ninth that binds, there is no tenth, and another failure ends the attempts |
| `FtpSockets.Session.DataSocket` | rtems-6.1/cpukit/ftpd/ftpd.c:633-689 | the waiting passive connection or a new one is the only open socket; a new one exists exactly when all calls succeed, else it is closed again |
| `FtpSockets.Session.CloseSocket` | rtems-6.1/cpukit/ftpd/ftpd.c:606-619 | a socket not given up before is closed by the first or the second call, and failure is returned exactly when both fail |
| `FtpSockets.Session.CloseDataSocket` | rtems-6.1/cpukit/ftpd/ftpd.c:703-716 | whichever field holds the socket, it is given up once and nothing stays held |
| `FtpSockets.Session.CommandRetrieve` | rtems-6.1/cpukit/ftpd/ftpd.c:785-889 | leaves no data socket; a waiting passive connection is used up exactly when the transfer is attempted |
| `FtpSockets.Session.CommandStore` | rtems-6.1/cpukit/ftpd/ftpd.c:940-1141 | the same on each of its return paths |
| `FtpSockets.Session.CommandList` | rtems-6.1/cpukit/ftpd/ftpd.c:1280-1318 | the same for LIST and NLST |
| `FtpSockets.Session.CommandPasv` | rtems-6.1/cpukit/ftpd/ftpd.c:1543-1603 | the listening socket is always closed; a connection waits exactly when one was accepted |
| `FtpSockets.RunSession` | rtems-6.1/cpukit/ftpd/ftpd.c:1930-1984 | for every command sequence and every outcome of the calls, those of close included: between commands only the waiting passive connection is held and nothing behind PORT, and at the end every opened socket was given up exactly once and closed exactly once, unless both calls of close on it failed |
| `VprintfNumber.DigitsFit` | rtems-6.1/cpukit/dev/iovprintf.c:52-53 | a 64-bit number in base 8, 10 or 16 has at most 22 digits, so digits and NUL fit the buffer |
| `VprintfNumber.DigitsReadBack` | rtems-6.1/cpukit/dev/iovprintf.c:84-86 | the digits have the number's value and no leading zero |
| `VprintfNumber.Ksprintn` | rtems-6.1/cpukit/dev/iovprintf.c:77-89 | the buffer read down from the returned position to the NUL is the number's digit text |
| `VprintfLayout.Widths` | rtems-6.1/cpukit/dev/iovprintf.c:318-331 | what the in-place arithmetic leaves of width and precision are the numbers of padding characters and zeros |
| `VprintfLayout.Number` | rtems-6.1/cpukit/dev/iovprintf.c:316-355 | the output is padding, sign, base prefix, zeros, digits, padding, and the return value counts every emitted character |
| `VprintfLayout.LayoutLength` | rtems-6.1/cpukit/dev/iovprintf.c:325-334 | the length is max(width, prefix + max(precision, digits)) if and only if there is no zero padding or the precision exceeds neither field nor digits |
| `VprintfLayout.PrecisionLost` | rtems-6.1/cpukit/dev/iovprintf.c:328-330 | zero padding with precision 8 and no width prints 5 as one character |
| `VprintfLayout.LayoutReadBack` | rtems-6.1/cpukit/dev/iovprintf.c:332-353 | for every flags, width, precision and number, reading the text as strtol does gives the number with its sign |
| `VprintfLayout.SignedNumber` | rtems-6.1/cpukit/dev/iovprintf.c:293-355 | a signed conversion prints text that reads back as the argument and fills at least the width |
| `VprintfFormat.ScanNumber` | rtems-6.1/cpukit/dev/iovprintf.c:169-174 | the loop reads the decimal number at the start of the text and stops behind its digits |
| `VprintfFormat.Scan` | rtems-6.1/cpukit/dev/iovprintf.c:131-272 | for a directive that ends before the format does, the switch entered again and again computes the scan function on flags, `*`, numbers and size modifiers |
| `VprintfFormat.Vprintf` | rtems-6.1/cpukit/dev/iovprintf.c:91-370 | for every format whose directives end before it does, with any arguments, the return value is the number of emitted characters, and these are the specified output; behind an unknown directive everything is literal |
| `VprintfText.PutText` | rtems-6.1/cpukit/dev/iovprintf.c:180-190 | a text in its field, padded on the side asked for |
| `VprintfText.PutString` | rtems-6.1/cpukit/dev/iovprintf.c:234-254 | a string cut to its precision and padded to its width |
| `VprintfText.PaddedLength` | rtems-6.1/cpukit/dev/iovprintf.c:244-253 | a field has the length of its text or its width, whichever is more |
| `VprintfText.PutDump` | rtems-6.1/cpukit/dev/iovprintf.c:191-204 | octets in hexadecimal with the delimiter between them and not behind the last |
| `VprintfText.HexDigitsReadBack` | rtems-6.1/cpukit/dev/iovprintf.c:197-198 | the two digits of a dumped octet have its value |
| `VprintfFormat.ParseDirective` | rtems-6.1/cpukit/dev/iovprintf.c:131-231 | a written directive, with flags and sizes in any order and number and width or precision from arguments, is scanned as exactly what it asks for, up to its end |
| `VprintfFormat.FormatMeaning` | rtems-6.1/cpukit/dev/iovprintf.c:122-368 | a format of literal text, percent signs and directives of every known conversion ends well and emits exactly the texts asked for, each for its own arguments |
| `VprintfFormat.OutputReadBack` | rtems-6.1/cpukit/dev/iovprintf.c:273-315 | an argument that fits the size of its directive reads back from what is emitted |
| `VprintfMeaning.SignedDecimal` | rtems-6.1/cpukit/dev/iovprintf.c:205-208 | `d` and `i` emit the sign asked for, no prefix, and the decimal digits of the argument in the field asked for, and read back in base 10 |
| `VprintfMeaning.UnsignedDecimal` | rtems-6.1/cpukit/dev/iovprintf.c:258-260 | `u` emits decimal digits without prefix and reads back in base 10 |
| `VprintfMeaning.Octal` | rtems-6.1/cpukit/dev/iovprintf.c:225-227 | `o` emits octal digits, with the prefix 0 for `#` and a number other than zero, and reads back in base 8 |
| `VprintfMeaning.Hex` | rtems-6.1/cpukit/dev/iovprintf.c:261-266 | `x` emits hexadecimal digits in small letters and `X` in capital ones, with the prefix 0x for `#` and a number other than zero, and they read back in base 16 |
| `VprintfMeaning.SignedHex` | rtems-6.1/cpukit/dev/iovprintf.c:267-269 | `y` emits a signed hexadecimal number in small letters and reads back in base 16 |
| `VprintfMeaning.PointerShown` | rtems-6.1/cpukit/dev/iovprintf.c:228-233 | `p` emits the pointer in hexadecimal, with the prefix exactly when no width is given |
| `VprintfMeaning.SizesMean` | rtems-6.1/cpukit/dev/iovprintf.c:209-224 | the sizes written `hh`, `h`, nothing, `l`, `ll`, `j`, `t` and `z` stand for arguments of one, two, four and eight bytes |
| `VprintfMeaning.SizeWraps` | rtems-6.1/cpukit/dev/iovprintf.c:273-311 | an argument that does not fit is taken modulo its size |
| `VprintfMeaning.PaddedSides` | rtems-6.1/cpukit/dev/iovprintf.c:183-189 | padding is behind a left-adjusted text and before any other |
| `VprintfMeaning.CharacterShown` | rtems-6.1/cpukit/dev/iovprintf.c:180-190 | `c` emits the character with the argument's code, padded with zeros only if asked for |
| `VprintfMeaning.StringShown` | rtems-6.1/cpukit/dev/iovprintf.c:234-254 | `s` emits as much of the string as the precision says, and "(null)" for a null pointer |
| `VprintfMeaning.DumpShown` | rtems-6.1/cpukit/dev/iovprintf.c:191-204 | `D` dumps as many octets as the width says, sixteen without one |
| `VprintfMeaning.ArgumentsTaken` | rtems-6.1/cpukit/dev/iovprintf.c:191-193 | the dump takes two arguments, every other conversion one |
| `VprintfMeaning.Letters` | rtems-6.1/cpukit/dev/iovprintf.c:134-272 | which conversion characters are known |
| `Decimals.ReadDecimal` | rt-tests-2.10/src/sched_deadline/cyclicdeadline.c:921-934 | reading a printed decimal number gives the number, and skipping its digits the text behind it |
| `CpuList.AddCpus` | rt-tests-2.10/src/sched_deadline/cyclicdeadline.c:816-859 | the search, absorb and link steps compute the specified list |
| `CpuList.AddSorted` | rt-tests-2.10/src/sched_deadline/cyclicdeadline.c:816-859 | a sorted list with gaps stays one if and only if the new range reaches a range of it or lies behind all of them |
| `CpuList.AddUnion` | rt-tests-2.10/src/sched_deadline/cyclicdeadline.c:816-859 | adding to a sorted list adds exactly the CPUs of the range, wherever it falls |
| `CpuList.GapCounterexample` | rt-tests-2.10/src/sched_deadline/cyclicdeadline.c:854-858 | adding 1 to the list 5 gives 5,1, and adding it again counts three CPUs |
| `CpuList.AddAllMeaning` | rt-tests-2.10/src/sched_deadline/cyclicdeadline.c:953-973 | ranges with ascending starts merge into a sorted list of their union |
| `CpuList.CountIsCardinality` | rt-tests-2.10/src/sched_deadline/cyclicdeadline.c:861-876 | the sum of the range sizes of a sorted list is the number of its CPUs |
| `CpuList.CountCpus` | rt-tests-2.10/src/sched_deadline/cyclicdeadline.c:861-876 | the loop returns that sum, or -1 if some range leaves the machine |
| `CpuList.Partition` | rt-tests-2.10/src/sched_deadline/cyclicdeadline.c:912-944 | the complement of a sorted list on the machine has exactly the CPUs the list has not |
| `CpuList.WholeInput` | rt-tests-2.10/src/sched_deadline/cyclicdeadline.c:946-976 | for ranges of the machine with ascending starts: sorted list, union, cardinality and partition together |
| `CpuListText.MakeNewList` | rt-tests-2.10/src/sched_deadline/cyclicdeadline.c:899-910 | the loop prints the list with commas between the ranges |
| `CpuListText.ReadRange` | rt-tests-2.10/src/sched_deadline/cyclicdeadline.c:921-935 | reading numbers and skipping digits in a printed range gives its start, its end and the text behind it |
| `CpuListText.MakeOtherCpuList` | rt-tests-2.10/src/sched_deadline/cyclicdeadline.c:912-944 | reading the printed text of a sorted list prints exactly its complement |
| `CpuListText.PrintBoth` | rt-tests-2.10/src/sched_deadline/cyclicdeadline.c:946-976 | the two printed lists partition the CPUs of the machine, and the count is the number of CPUs named |
| `MigrateTest.InvKept` | rt-tests-2.10/src/rt-migrate-test/rt-migrate-test.c:440-456 | every step of any task, of main and of the barriers keeps the phases in step and the record of table writes |
| `MigrateTest.EachCellOnce` | rt-tests-2.10/src/rt-migrate-test/rt-migrate-test.c:271-283 | in every run each cell is written at most once, with the `now` of its own round and inside the tables; at the end exactly the cells of the final number of rounds are written, so the last round recorded nothing |
| `MigrateTest.CompleteWithoutStop` | rt-tests-2.10/src/rt-migrate-test/rt-migrate-test.c:625-654 | if nothing stops the loop, every cell of every run and task is written exactly once |
| `MigrateTest.StopTakesEffect` | rt-tests-2.10/src/rt-migrate-test/rt-migrate-test.c:649-653 | a stop noticed at the end of round l ends the loop there: in every run from then on the number of rounds is l + 1, no further `now` is read, and exactly the rows up to l are written |
| `MigrateTest.NowsAreTimes` | rt-tests-2.10/src/rt-migrate-test/rt-migrate-test.c:625-633 | each round's `now` is the time main read at its beginning |
| `MigrateTest.ExitTogether` | rt-tests-2.10/src/rt-migrate-test/rt-migrate-test.c:657-662 | a task exits only when everybody has passed the last end barrier with `done` set |
| `MigrateTest.NoDeadlock` | rt-tests-2.10/src/rt-migrate-test/rt-migrate-test.c:625-662 | until all tasks have exited somebody can take a step, so none is left at a barrier |
| `MigrateTest.AllRunsEnd` | rt-tests-2.10/src/rt-migrate-test/rt-migrate-test.c:625-662 | every run has at most a number of steps given by rounds and tasks, and ends with all tasks exited |
| `Cyclictest.Tsnorm` | rt-tests-2.10/src/include/rt-utils.h:46-52 | normalises without changing the time; a negative nanosecond field is left alone |
| `Cyclictest.TsgreaterIsGreater` | rt-tests-2.10/src/include/rt-utils.h:54-58 | on normalised times the field comparison is the comparison of the times |
| `Cyclictest.CatchUp` | rt-tests-2.10/src/cyclictest/cyclictest.c:883-887 | the loop ends at the first grid point from `next` on that is not before `now` |
| `Cyclictest.NextDeadline` | rt-tests-2.10/src/cyclictest/cyclictest.c:874-887 | the next deadline is the least grid point behind the last one and its overruns that is not before `now` |
| `Cyclictest.Deadlines` | rt-tests-2.10/src/cyclictest/cyclictest.c:722-887 | over all cycles every deadline is normalised, on the grid of multiples of the interval and later than the one before |
| `Cyclictest.WrappedDifference` | rt-tests-2.10/src/include/rt-utils.h:70 | with wrap-around, converting two numbers to int and subtracting gives their difference if and only if that fits an int |
| `Cyclictest.DefinedDifference` | rt-tests-2.10/src/include/rt-utils.h:70 | the subtraction does not overflow and gives the difference if and only if both numbers lie in one stretch of the conversion and their difference fits an int |
| `Cyclictest.NanosecondDifference` | rt-tests-2.10/src/include/rt-utils.h:67-73 | both conditions for the nanosecond difference of two normalised times |
| `Cyclictest.MicrosecondDifference` | rt-tests-2.10/src/include/rt-utils.h:60-65 | the microsecond difference is the nanosecond one with its nanosecond part cut off towards zero, by less than a microsecond, whatever the conversions did |
| `Cyclictest.DifferenceOverflows` | rt-tests-2.10/src/include/rt-utils.h:70 | inputs at which the subtraction overflows, wrapping to a wrong and to the right second |

## Left out

- pi_stress: failing barrier and mutex calls, SIGINT, the watchdog and its error reports end the
  run and are outside the protocol; scheduling and priorities belong to the kernel. `total` is an
  unbounded number. Without any group main merely polls, which `NoDeadlock` says.
- Base64: the characters emitted are counted in an unbounded number, where the code uses int; the
  word break is the characters of the C string before its NUL.
- FTP transfers: binary mode, the hook buffer, replies, path handling and directory lines; `read`,
  `recv`, `send` and `write` are parameters. After a failed write of an LF the code scans the rest
  of the buffer once before it gives up; the model stops at once, the count of bare line feeds is
  not reported then.
- FtpAscii.Store: the count of bare line feeds is unbounded, where the code uses int.
- FTP task pool: failing creation of tasks in `task_pool_init`, and `task_pool_done`. The thread
  that obtains a session and the one that releases it are one thread of the model.
- FTP sockets: the addresses PORT sets and the `use_default` flag are not part of this model. A
  call of `close` that fails is taken to leave the socket open.
- VprintfFormat.Vprintf: a directive cut off by the end of the format is excluded, because the
  program then reads behind the end. Overflow of int in width arithmetic is not modelled, long,
  size_t, ptrdiff_t and pointers have 64 bits, and an argument of the wrong kind or a dump of more
  octets than there are, which C leaves undefined, counts as 0, "(null)" or the octets there are.
- VprintfFormat.OutputReadBack: for the least 64-bit number it says what the usual wrap-around of
  the negation gives, which C leaves undefined.
- VprintfLayout.SignedNumber: excludes the least 64-bit number, whose negation overflows in C.
- `calc_nr_cpus`: the reading of the user's text into ranges and its error returns; the model
  starts from the ranges. Node allocation and freeing are not modelled: the linked list is a
  sequence.
- rt-migrate-test: failing calls, tracing, the printed results and the two further tables, which
  are written by the same statements as the first.
- cyclictest: relative and itimer modes, the statistics, histogram and tracing; clock readings and
  timer overruns are parameters.
- pmqtest, svsematest, sigwaittest, ptsematest, oslat, queuelat, signaltest, hackbench and all
  other directories of RTEMS: not part of this model.
