# ft_nmap, modelled and proved in Dafny

ft_nmap is a port scanner: it reads options, a port list and a list of hosts, sends one probe for
every asked (host, scan type, port) either from a sequential loop or from threads, and folds the
answers it captures into a state matrix. This project models the program around its sockets and
proves what the program is for.

The model keeps the form of the C code: arrays filled in place, loops with running counters, a
class for the global state (`Bag`), for the host list (`Hosts`, linked through `next`), for the
line reader with its static buffer (`Reader`), for the descriptor and the wire. Each such method is
proved against a specification function or a grammar, and lemmas say what that specification
means. The threads are a state machine whose steps are the lock, write, add, unlock and send of
`routine`; the theorems about them quantify over every interleaving.

| Module | What it holds |
|---|---|
| `CTypes`, `Counting`, `Arithmetic` | C integer types; ranks of set flags; quotients |
| `Decimal`, `Positional`, `Split` | `ft_atoi`, `ft_itoa`, `ft_putnbr_fd`, and what they mean by character codes and powers of ten; `ft_split` |
| `PortGrammar`, `PortTable`, `Ports`, `PortMeaning` | the `--ports` recogniser, the double counting behind the table size, the option, and what an argument lists by its grammar |
| `Ipv4`, `Targets` | the check of dotted addresses; the hosts named by `--ip` and `--file` |
| `Bag`, `Options` | the global state and the option parser |
| `RoundRobin`, `Plan`, `Launch` | `ft_setter`, the division of the probes among the threads, `launch_thread_scan` |
| `Checksum`, `Packet` | RFC 1071, the probe packets |
| `HostList`, `Probes`, `Execution` | the hosts, the probes of a sequential run, the sequential send loop |
| `Workers`, `Threads`, `SendPhase` | the threads as a state machine that refines the sequential loop; the same threads at work on the hosts under any scheduler |
| `Receive`, `Verdicts` | the answer handler, and what the state matrix means after any trace |
| `LineReader` | `get_next_line` and `main_gnl` |
| `Program` | a whole run |

The definitions that both a method and its contract use are tied down from outside: numbers by
character codes and powers of ten (`Positional`), option and scan names by the strings of the
command line (`Options.WordSpells`, `Options.IpArgument` and its like, `Options.FlagsLeft`), probes
by their bytes (`Packet.TcpProbeBytes`, `Packet.UdpProbeBytes`), answers by the bytes of the frame
(`Verdicts.TcpReplyTells`, `Verdicts.UdpReplyTells`, `Verdicts.IcmpErrorTells`), recorded states by
their numbers (0 closed, 1 open, 2 filtered, 3 open or filtered, 4 unfiltered), the checksum by the
example of RFC 1071, and the listed ports by the grammar (`PortMeaning`).

## Main results

1. **Threads do not matter** (`Workers.ParallelRefinesSequential`, `Threads.RunJobs`,
   `SendPhase.SendRequests`). Whatever the interleaving, when the threads have finished, the
   states of the hosts and the multiset of probes are those of the sequential loop, and so is
   every cell after any trace of answers. On the way no cell is stored to by two workers, and only
   the holder of the mutex can have a cell half-written; the mutex never blocks everybody and every
   run takes a bounded number of effective steps (`Workers.RunsAreBounded`), so the scheduler,
   which picks any thread that can move, comes to an end.
2. **The plan is a partition** (`Launch.LaunchThreadScan`, `Plan.PlanIsPartition`). Every asked
   (scan, port) belongs to exactly one thread, in ascending blocks of the round-robin sizes; the
   thread table is filled exactly; no thread is idle; and for any leftover in the uncleared slot
   the number of started threads is known.
3. **Options in any order** (`Options.FtParsing`). The exact set of command lines that lead to a
   scan, and for each of them the recorded hosts, ports, scans and thread count; the thread count
   always lies between one thread a scan and one thread a probe. `Program.FtNmap` carries this
   through a whole run: the named hosts without duplicates, the asked probes, the folded answers.
4. **The port option** (`Ports.CheckPortsOption`). The scanners together accept exactly a grammar;
   the predicted table size is the number of stores; the recorded ports are exactly the listed
   ones, port 0 included, and `count_ports` is their number.
5. **Checksums** (`Checksum.FtChecksum`, `Packet.ProbeVerifies`). The C loop computes RFC 1071's
   sum without overflow up to the best possible bound; every probe of the reused packet verifies
   in both byte orders.
6. **Answers** (`Verdicts.LastVerdictWins`, `Verdicts.AnswerFindsItsCell`). After any trace each
   cell holds its last verdict or its default; an answer is attributed to the cell of its probe
   and to no other.
7. **Lines** (`LineReader.Reader.GetNextLine`). The lines come out whatever the sizes of the reads.

Some properties do not hold of the code without a condition; there the exact condition is proved,
and an input is given for which the property fails:

- the thread table is filled exactly if UDP is not asked or the last slot of the per-scan counts,
  which `ft_setter` does not clear when it starts at 1, held 0 (`Launch.LaunchThreadScan`; fails
  for one UDP thread and a leftover of 1, `Launch.LeftoverStartsTwoForOne`);
- a wish for threads comes into force only after scans (and, beyond one thread a scan, ports) have
  been given before it on the command line (`Options.ThreadsNeedScansAndPortsFirst`; the same
  options in two orders, `Options.SpeedupFirstIsLost`);
- the sum of an odd buffer is RFC 1071's exactly on a little-endian host, or when its last byte is
  0 (`Checksum.FtChecksum`; fails for the single byte 1, `Checksum.OddByteDiffers`);
- `ft_atoi` reads back what `ft_itoa` prints without overflow for every int but the minimum
  (`Decimal.PrintThenRead`, `Decimal.MinimumDoesNotFit`);
- the table of `main_gnl` has room for its terminating NULL exactly below 1024 lines
  (`LineReader.MainGnl`; fails for 1024 newlines, `LineReader.NewlinesOverrunTable`).

Where code and comments differ, the code is followed: `create_pckt` announces a window size but
sets none (project/code/program/execution/execution.c:18-20), and the header that
`ft_receive_pckt` calls an ethernet header is skipped with 16 bytes
(project/code/program/receive/receive.c:33).

## Model

| member | source | states |
|---|---|---|
| Decimal.FtAtoi | project/code/libft/ft_atoi.c:16-39 | the number denoted after blanks and one sign, whenever the digit run fits an int; no intermediate overflow |
| Positional.AtoiReads | project/code/libft/ft_atoi.c:16-39 | codes 9 to 13 and 32 are skipped, then one sign, then digits up to the first other character; each digit counts as its code less 48 times its power of ten |
| Positional.ValueByCodes | project/code/libft/ft_atoi.c:35 | the last digit adds its code less 48 to ten times the number before it |
| Positional.ValueIsPositional | project/code/libft/ft_atoi.c:33-37 | the number read is the sum of codes less 48 times powers of ten |
| Decimal.ReadDigits | project/code/libft/ft_atoi.c:33-37 | the digit loop gives the value of the run, every partial result fitting an int |
| Decimal.PrintThenRead | project/code/libft/ft_itoa.c:55-77 | reading the printed text gives the number back, and its digits fit an int if and only if it is not the minimum |
| Decimal.MinimumDoesNotFit | project/code/libft/ft_atoi.c:33-37 | the digits printed for the minimum exceed the largest int by 1 |
| Decimal.ValueOfNatText | project/code/libft/ft_itoa.c:46-51 | the printed digits of a natural denote it |
| Positional.PrintedDigits | project/code/libft/ft_itoa.c:46-51 | character i from the end is 48 plus the digit of n at 10 to the i |
| Positional.PrintedLength | project/code/libft/ft_itoa.c:16-29 | no leading zero is printed and no digit is missing |
| Positional.PrintedSign | project/code/libft/ft_itoa.c:40-41 | a negative number prints as a dash and its opposite |
| Decimal.NatTextIsInjective | project/code/libft/ft_itoa.c:46-51 | different naturals have different texts |
| Decimal.FtLen | project/code/libft/ft_itoa.c:16-29 | the length of the decimal text, 1 for 0 |
| Decimal.StoreDigits | project/code/libft/ft_itoa.c:46-51 | filled from the end, the cells hold the digits in order and no other cell changes |
| Decimal.CreaNbr | project/code/libft/ft_itoa.c:31-53 | every allocated cell is written: sign, digits, NUL, nothing else |
| Decimal.FtItoa | project/code/libft/ft_itoa.c:55-77 | the canonical text of any int, the minimum included |
| Decimal.FtPutnbrFd | project/code/libft/ft_putnbr_fd.c:16-40 | the recursive printer appends exactly the text of ft_itoa, for every int |
| Split.SpansAreMaximalRuns | project/code/libft/ft_split.c:79-91 | the spans are exactly the maximal separator-free runs, each once, left to right |
| Split.TokensAreClean | project/code/libft/ft_split.c:83-88 | no token is empty, none holds the separator |
| Split.TokensConserve | project/code/libft/ft_split.c:68-94 | joined, the tokens are the input without its separators |
| Split.StrNbr | project/code/libft/ft_split.c:16-33 | the number of tokens |
| Split.Cpypste | project/code/libft/ft_split.c:35-51 | a fresh NUL-terminated copy of the run that starts at i, of exactly its size |
| Split.FtSplit | project/code/libft/ft_split.c:68-94 | all tokens in order, the NULL in the last allocated slot |
| PortGrammar.OnlyDigitsInStr | project/code/program/utils/utils_parsing.c:5-16 | true if and only if every character is a digit |
| PortGrammar.OnlyDigitsCommaDashInStr | project/code/program/utils/utils_parsing.c:18-30 | true if and only if every character is a digit, comma or dash |
| PortGrammar.DashNumber | project/code/program/utils/utils_parsing.c:32-48 | true if and only if there is more than one dash |
| PortGrammar.MisplacedCommaDash | project/code/program/utils/utils_parsing.c:50-71 | true if and only if some separator stands at an end, before a dash or after a comma |
| PortGrammar.CommasThenSingleDash | project/code/program/utils/utils_parsing.c:73-89 | true if and only if no comma stands anywhere after a dash |
| PortGrammar.CharCount | project/code/program/utils/utils_parsing.c:123-135 | the number of occurrences of a character |
| PortGrammar.FtStrchr | project/code/libft/ft_strchr.c:16-31 | the first occurrence, NULL if and only if there is none; the terminating NUL counts as an occurrence of NUL |
| PortGrammar.BasicParsingPortsOption | project/code/program/parsing/ports.c:6-24 | goes on if and only if the string is empty or in the grammar; reports a range if and only if there is a dash |
| PortGrammar.RecogniserIsGrammar | project/code/program/utils/utils_parsing.c:18-89 | the position checks hold together if and only if the string is empty or a comma list of numbers whose last item may be a range |
| PortGrammar.ItemsOfAccepted | project/code/program/parsing/ports.c:41-52 | splitting at commas gives one item more than commas, all numbers, except that with a dash the last one is a range |
| PortGrammar.RangeTokens | project/code/program/parsing/ports.c:52 | splitting a range at the dash gives exactly its two ends |
| PortTable.CountByPort | project/code/program/init/init.c:87-100 | counting in-range entries port by port adds up to counting them entry by entry |
| PortTable.PredictionWithRange | project/code/program/init/init.c:101-102 | the predicted size equals the number of entries the later fill keeps |
| PortTable.PredictionWithoutRange | project/code/program/init/init.c:117-133 | without a range the fill stores one entry less than predicted if and only if 0 is listed |
| PortTable.IndivTableHolds | project/code/program/init/init.c:118-133 | the table holds each listed port outside the range exactly once, 0 included |
| PortTable.ListedSize | project/code/program/parsing/ports.c:62-64 | the size of the range plus the size of the table is the number of listed ports |
| PortMeaning.NumberLists | project/code/program/parsing/ports.c:41-59 | a number lists itself, by its places |
| PortMeaning.RangeLists | project/code/program/parsing/ports.c:50-58 | a range lists what lies between its ends, both included |
| PortMeaning.ListLists | project/code/program/parsing/ports.c:41-59 | a list lists its first number and what the rest lists |
| PortMeaning.PortFive | project/code/program/parsing/ports.c:36-67 | the argument 5 asks for port 5 alone |
| Ports.IsCharInDouble | project/code/program/init/init.c:13-25 | true if and only if the entry's number occurred before |
| Ports.LenIndivWithoutDoubles | project/code/program/init/init.c:28-51 | the number of repeated entries |
| Ports.DoublesOutOfRange | project/code/program/init/init.c:54-71 | the number of repeated entries outside the range |
| Ports.InitRangePorts | project/code/program/init/init.c:73-103 | stops if and only if the upper end exceeds 65535; else the computed size is the number of ports to be kept |
| Ports.FillTable | project/code/program/init/init.c:122-133 | every store is inside the table, the kept ports stand first and in order, the cells behind them keep their zeros; stops if and only if a port exceeds 65535 |
| Ports.InitPorts | project/code/program/init/init.c:106-135 | the table is full and holds exactly the ports it is for, in both cases; stops if and only if some number is too large |
| Ports.GetTotalRangePorts | project/code/program/utils/utils_parsing.c:110-121 | stops if and only if the range descends, else the number of its ports |
| Ports.ListedPort | project/code/program/init/init.c:122-133 | a port is listed if and only if it is one of the numbers read or lies in the range (a range token reads as its lower end) |
| Ports.TableIsListed | project/code/program/parsing/ports.c:36-67 | range and table together are exactly the listed ports, with their number |
| Ports.InitStatusOfPortsType | project/code/program/parsing/ports.c:27-33 | the flags are raised if and only if there is a table, or a range |
| Ports.CheckPortsOption | project/code/program/parsing/ports.c:36-67 | taken if and only if no ports were given before and the argument is in the grammar, ascending, below 65536 and lists at most 1024 ports; then exactly the listed ports are asked and counted |
| Ipv4.NumberRange | project/code/program/utils/utils_parsing.c:169-182 | true if and only if every entry reads as 0 to 255 |
| Ipv4.NonNumeric | project/code/program/utils/utils_parsing.c:150-167 | true if and only if every entry is all digits |
| Ipv4.AtMostOneMore | project/code/libft/ft_split.c:16-33 | splitting never gives more than one token more than separators |
| Ipv4.FourTokens | project/code/program/parsing/ip.c:13-16 | three dots and four tokens mean the tokens are the stretches between the dots |
| Ipv4.IpIpv4Deeper | project/code/program/parsing/ip.c:8-25 | accepts exactly four numbers from 0 to 255 joined by single dots |
| Targets.TextOfAddress | project/code/program/parsing/ip.c:41-46 | the text of any address passes the dotted-quad check and reads back as the address |
| Targets.AddressTokens | project/code/program/parsing/ip.c:41-46 | the text of an address is its four bytes printed in order, with dots between |
| Targets.GetIpByHostname | project/code/program/parsing/ip.c:29-50 | the dotted text of the address that the look-up gives, nothing if it fails |
| Targets.ResolveAll | project/code/program/parsing/ip.c:111-122 | goes on if and only if every name resolves; each name is then replaced by the text of its address, since the dotted-quad check rejects none |
| Targets.ReadFile | project/code/program/parsing/ip.c:81-91 | exactly the lines of the file, nothing if it cannot be opened |
| Bag.Bag.constructor | project/code/program/ft_nmap.c:8-11 | every flag, count, port, scan and flag table entry starts at zero, and no host is named |
| Options.ScansCount | project/code/program/parsing/scan.c:5-27 | the number of asked scan types, by the predicate that the launch uses |
| Options.SetScan | project/code/program/parsing/scan.c:41-58 | sets exactly the flag that the string names, SYN, NULL, FIN, XMAS, ACK or UDP, and knows no other |
| Options.ScansByName | project/code/program/execution/thread_scan.c:93-108 | when exactly the named scans are asked, each of the six flags is set if and only if its own name is listed |
| Options.CheckScanOption | project/code/program/parsing/scan.c:29-64 | taken if and only if not given before and all items are scan names; then exactly the flags of the named scans are set, and counted |
| Options.IsScanAsked | project/code/program/execution/thread_scan.c:93-108 | true if and only if the scan, or all scans, were asked |
| Options.CheckSpeedupLogic | project/code/program/parsing/speedup.c:5-17 | the wish, raised to one thread a scan or lowered to one thread a probe |
| Options.ClampedIsSound | project/code/program/parsing/speedup.c:5-36 | more than one thread after the clamp means there are scans, at least one thread each, and no more threads than probes once ports are given |
| Options.UseSpeedup | project/code/program/parsing/speedup.c:31-35 | keeps the invariant of all options; threads are enabled if and only if the clamp leaves more than one |
| Options.CheckSpeedupOption | project/code/program/parsing/speedup.c:19-36 | taken if and only if threads are not enabled yet and the argument is digits up to 250 |
| Options.ThreadsNeedScansAndPortsFirst | project/code/program/parsing/speedup.c:5-36 | when a wish brings threads into force, and how many, by the scans and ports given before it |
| Options.SpeedupFirstIsLost | project/code/program/parsing/speedup.c:5-36 | the same options in two orders: asked for first, threads do not come into force; asked for last, they do as wished |
| Options.PortAsked | project/code/program/execution/execution.c:61-83 | true if and only if the port is in the table or in the range |
| Options.CheckIpOption | project/code/program/parsing/ip.c:98-126 | taken if and only if no target was given and every name between commas resolves; keeps the texts of the addresses in order |
| Options.CheckFileOption | project/code/program/parsing/ip.c:75-94 | taken if and only if no target was given, the file opens, has a line, and every line resolves; keeps the texts of the addresses in order |
| Options.CheckMandatoryOptions | project/code/program/parsing/parsing.c:41-57 | stops if and only if no target was given; else the default ports 1 to 1024 and all scans fill the gaps, and the counts are right |
| Options.PortsIntoGlobalList | project/code/program/parsing/parsing.c:121-127 | the flag of every port is whether it is asked |
| Options.ScansIntoGlobalList | project/code/program/parsing/parsing.c:129-135 | the flag of every scan type is whether it is asked |
| Options.PortsAndTypeAskedIntoGlobalList | project/code/program/parsing/parsing.c:119-136 | the recorded counts are the numbers of set flags, 1 to 1024 ports, and the thread count lies between one a scan and one a probe |
| Options.FlagsLeft | project/code/program/parsing/parsing.c:119-136 | flags 1 to 6 stand for SYN, NULL, FIN, XMAS, ACK and UDP as named, all set if none is; ports are the given ones or 1 to 1024 |
| Options.CheckHelpOption | project/code/program/parsing/help.c:10-19 | stops if and only if some argument asks for help |
| Options.CheckOptions | project/code/program/parsing/parsing.c:20-38 | goes on if and only if every odd argument is one of the five option strings |
| Options.OrderDoesNotMatter | project/code/program/parsing/parsing.c:149-170 | in an accepted command line the ports, scans and hosts given by any word are the recorded ones, wherever it stands |
| Options.OnlyWhatIsGiven | project/code/program/parsing/parsing.c:149-170 | nothing is recorded that no word gives |
| Options.WordSpells | project/code/program/parsing/parsing.c:149-162 | a word is the option that its argument spells, with the argument after it |
| Options.PortsArgument | project/code/program/parsing/parsing.c:155-156 | an accepted --ports argument is acceptable and, if not empty, its ports are the requested ones |
| Options.ScanArgument | project/code/program/parsing/parsing.c:151-152 | the items of an accepted --scan argument are scan names and the requested scans |
| Options.IpArgument | project/code/program/parsing/parsing.c:153-154 | the names of an accepted --ip argument resolve, and their addresses are the requested hosts |
| Options.FileArgument | project/code/program/parsing/parsing.c:159-160 | an accepted --file argument names a file with lines that all resolve, and their addresses are the requested hosts |
| Options.SpeedupArgument | project/code/program/parsing/parsing.c:157-158 | an accepted --speedup argument is a number up to 250; what it brings into force by the scans and ports before it stays in force |
| Options.OnlyArgumentsAreHeard | project/code/program/parsing/parsing.c:149-170 | nothing is requested without its option string among the arguments |
| Options.TakeWord | project/code/program/parsing/parsing.c:149-170 | one turn of the loop: passes under the exact condition of its option, keeps the invariant, records what the word asks for |
| Options.ParseWords | project/code/program/parsing/parsing.c:149-170 | for every list of words in any order: goes on if and only if each word passes and the last one is no option; the invariant holds at the end |
| Options.FtParsing | project/code/program/parsing/parsing.c:138-175 | goes on for exactly the well-formed command lines with one target; leaves exactly the requested hosts, ports, scans and thread count, ready to launch |
| RoundRobin.FtBzero | project/code/libft/ft_bzero.c:16-26 | the first n cells are 0, the others unchanged |
| RoundRobin.FtSetter | project/code/program/execution/thread_scan.c:77-91 | terminates although a disabled slot takes its unit back, and leaves the closed form of the round-robin, added to what an uncleared slot held |
| RoundRobin.DealtStep | project/code/program/execution/thread_scan.c:81-90 | dealing one unit more raises exactly the slot whose turn it is |
| RoundRobin.SharesAddUp | project/code/program/execution/thread_scan.c:77-91 | the shares of the enabled slots add up to the total |
| RoundRobin.SharesAreBalanced | project/code/program/execution/thread_scan.c:81-90 | shares differ by at most one, and earlier slots get the larger ones |
| RoundRobin.ShareIsPositive | project/code/program/execution/thread_scan.c:77-91 | with at least one unit a slot, every slot gets one |
| Plan.BlocksAscend | project/code/program/execution/thread_scan.c:126-149 | a later thread of a scan has only larger ports than an earlier one |
| Plan.BlockSize | project/code/program/execution/thread_scan.c:133-149 | a thread gets exactly its share of the ports, and at least one if there are no more threads than ports |
| Plan.PlanCovers | project/code/program/execution/thread_scan.c:118-157 | every asked (scan, port) has a thread |
| Plan.PlanNeverOverlaps | project/code/program/execution/thread_scan.c:118-157 | no (scan, port) has two threads |
| Plan.PlanIsPartition | project/code/program/execution/thread_scan.c:118-157 | the threads divide exactly the asked probes, each thread making one scan |
| Plan.EveryScanIsServed | project/code/program/execution/thread_scan.c:116 | with no fewer threads than scans every asked scan gets a thread |
| Plan.PlanHasAllThreads | project/code/program/execution/thread_scan.c:112-157 | over all scans there are exactly as many threads as requested |
| Plan.NoIdleThread | project/code/program/execution/thread_scan.c:124-149 | with no more threads than probes every thread has a port |
| Launch.TakePortsFrom | project/code/program/execution/thread_scan.c:139-149 | takes exactly the next asked ports, as many as told, and says where it stopped |
| Launch.FlagScan | project/code/program/execution/thread_scan.c:135-137 | the thread's flags name its scan alone |
| Launch.SharePorts | project/code/program/execution/thread_scan.c:122-124 | the sizes dealt to the threads of a scan are the distances of the block ends |
| Launch.StartThread | project/code/program/execution/thread_scan.c:129-150 | the thread's record is the block between its two ends |
| Launch.LaunchScan | project/code/program/execution/thread_scan.c:122-155 | appends the consecutive blocks of one scan to the thread table |
| Launch.LaunchThreadScan | project/code/program/execution/thread_scan.c:110-164 | starts as many threads as requested plus, if UDP is asked, the leftover of its uncleared slot; if that is the requested number, the table is full, its threads divide exactly the asked probes, and none is idle |
| Launch.LaunchScans | project/code/program/execution/thread_scan.c:118-157 | for any positive counts of the asked scans, the threads started are those of the plan, in order, and their number is returned |
| Launch.StartedInAll | project/code/program/execution/thread_scan.c:77-91 | the slot counts of the asked scans add up to the total plus, if UDP is asked, the leftover |
| Launch.LeftoverStartsTwoForOne | project/code/program/execution/thread_scan.c:112-116 | one UDP thread requested and a leftover of 1 start two threads |
| Launch.PlanOfIsSound | project/code/program/execution/thread_scan.c:110-164 | the launched plan divides the asked probes and no thread is idle |
| Checksum.SumIsOnesSum | project/code/program/checksum/ft_checksum.c:11-17 | the 32-bit sum represents the one's-complement sum of section 1 of RFC 1071 |
| Checksum.SumIsOnesSumExactlyIf | project/code/program/checksum/ft_checksum.c:11-17 | it does so if and only if the host is little-endian, the length is even or the last byte is 0 |
| Checksum.OddByteDiffers | project/code/program/checksum/ft_checksum.c:16-17 | for the single byte 1 a big-endian host sums 1 where RFC 1071 has 0x100 |
| Checksum.TwoFoldsSuffice | project/code/program/checksum/ft_checksum.c:18-20 | two folds reduce any 32-bit sum |
| Checksum.Accumulate | project/code/program/checksum/ft_checksum.c:7-17 | up to 131074 bytes the accumulator never overflows |
| Checksum.LongerMayOverflow | project/code/program/checksum/ft_checksum.c:9-17 | beyond that bound it can |
| Checksum.FtChecksum | project/code/program/checksum/ft_checksum.c:5-22 | the complement of the one's-complement sum, with the exact condition for odd lengths |
| Checksum.Rfc1071Example | project/code/program/checksum/ft_checksum.c:5-22 | the numerical example of section 3 of RFC 1071, in both byte orders |
| Checksum.StoredChecksumVerifies | project/code/program/checksum/ft_checksum.c:44-48 | stored in a zeroed aligned field it makes the recomputed checksum 0 |
| Checksum.ByteOrderIndependence | project/code/program/checksum/ft_checksum.c:7-17 | the sum in the other byte order is the swapped sum (section 2 (B) of RFC 1071) |
| Checksum.VerifiesInAnyOrder | project/code/program/checksum/ft_checksum.c:5-22 | what verifies in one byte order verifies in the other |
| Packet.CreatePckt | project/code/program/execution/execution.c:5-36 | the packet of each scan, byte for byte: scan type as source port, UDP length 8, TCP offset 5 and flags 0x02, 0, 0x01, 0x29 or 0x10 |
| Packet.PseudoBytes | project/code/program/checksum/ft_checksum.c:30-40 | the pseudo-header is source, destination, 0, protocol 6 or 17, and the length in network order |
| Packet.InitChecksum | project/code/program/checksum/ft_checksum.c:24-49 | stores at 16 (TCP) or 6 (UDP) the checksum over source, destination, [0, 6, 0, 20] or [0, 17, 0, 8], and the header; no other byte changes |
| Packet.StampPacket | project/code/program/execution/execution.c:121-131 | port set, check field reset, then the checksum stored |
| Packet.ReuseIsHarmless | project/code/program/execution/execution.c:90-132 | whatever the previous turn left in the packet, the bytes sent are those of a fresh one |
| Packet.ProbeVerifies | project/code/program/execution/execution.c:121-132 | every probe verifies under its pseudo-header in network order and in either host order |
| Packet.ProbeCarriesCell | project/code/program/execution/execution.c:13-19 | source and destination port of the probe are its scan type and port |
| Packet.TcpProbeBytes | project/code/program/execution/execution.c:90-132 | every byte of a TCP probe, and its checksum verifies in either byte order over source, destination, [0, 6, 0, 20] and the probe |
| Packet.UdpProbeBytes | project/code/program/execution/execution.c:90-132 | every byte of a UDP probe, and its checksum verifies in either byte order over source, destination, [0, 17, 0, 8] and the probe |
| HostList.FtMemcmp | project/code/libft/ft_memcmp.c:16-34 | 0 if and only if the addresses are equal |
| HostList.DedupIsSound | project/code/program/parsing/ip.c:163-189 | later duplicates are dropped, nothing else, and the order is that of first occurrence |
| HostList.Hosts.AddNode | project/code/program/parsing/ip.c:163-189 | the chain stays acyclic and free of duplicates; an unknown address is appended with zeroed states, a known one changes nothing |
| HostList.Hosts.AddIpNodes | project/code/program/parsing/ip.c:192-215 | stops if and only if there are more than 42 texts; else the list has the addresses of the texts without later duplicates, all states zero |
| Probes.SequentialTraceCount | project/code/program/execution/launch.c:9-23 | the sequential run sends every asked probe exactly once and nothing else |
| Probes.DefaultStates | project/code/program/execution/execution.c:115-118 | a FIN, NULL, XMAS or UDP probe leaves state 3, a SYN or ACK probe state 2 |
| Probes.SequentialOrder | project/code/program/execution/launch.c:11-22 | the sequential probes are those of scan types 2, 1, 5, 3, 4 and 6, in this order |
| Probes.PortsAscend | project/code/program/execution/execution.c:109-139 | the ports of a host are probed in ascending order |
| Execution.SendProbe | project/code/program/execution/execution.c:114-137 | the cell gets state 3 for scans 2, 3, 4 and 6 and state 2 for 1 and 5, no other cell changes, and the probe of that cell goes out |
| Execution.ProbeHost | project/code/program/execution/execution.c:109-139 | the probes of all asked ports of a host, ascending, and their default states |
| Execution.Execution | project/code/program/execution/execution.c:85-143 | the same for every host in list order, with one reused packet |
| Execution.SendSequentially | project/code/program/execution/launch.c:9-23 | the asked scans in the order of the calls: their probes appended, their cells at their defaults, all else unchanged |
| Workers.FindScan | project/code/program/execution/thread_scan.c:12-17 | the first scan flag set in the thread's record |
| Workers.SendIsProbe | project/code/program/execution/thread_scan.c:46-58 | what a send step puts on the wire is the probe of the current cell |
| Workers.StepKeepsInv | project/code/program/execution/thread_scan.c:32-68 | every step of every thread keeps the invariant of cells, mutex, packets and sent probes |
| Workers.RunKeepsInv | project/code/program/execution/thread_scan.c:5-73 | so it holds in every reachable state |
| Workers.HalfWrittenOnlyUnderMutex | project/code/program/execution/thread_scan.c:40-45 | in every reachable state a cell holds its old value or its default, unless the holder of the mutex is between its two stores to that very cell, which then holds Filtered |
| Workers.OneWriterPerCell | project/code/program/execution/thread_scan.c:32-68 | if a thread stores to a cell in one reachable state, no other thread stores to it in any |
| Workers.OnlyStoresChange | project/code/program/execution/thread_scan.c:40-45 | a step changes a cell only if it stores to it |
| Workers.StoresUnderMutex | project/code/program/execution/thread_scan.c:40-45 | in every reachable state, a thread about to store holds the mutex |
| Workers.ParallelRefinesSequential | project/code/program/execution/thread_scan.c:5-73 | every interleaving that runs to completion leaves the sequential matrix, state 3 or 2 by number in every asked cell and nothing new elsewhere, and the sequential multiset of probes |
| Workers.SomeWorkerMoves | project/code/program/execution/thread_scan.c:40-45 | the mutex never blocks everybody: while a thread is unfinished, some thread can move |
| Workers.RunsAreBounded | project/code/program/execution/thread_scan.c:32-68 | a bound on the effective steps of every schedule; the threads have finished if and only if none can move |
| Threads.StepThread | project/code/program/execution/thread_scan.c:32-68 | a step of a thread on the hosts and the wire is the step of the state machine |
| Threads.Schedule | project/code/program/execution/thread_scan.c:158-163 | a scheduler that picks any thread that can move comes to an end, with all threads finished, in a state that some schedule of the state machine reaches |
| Threads.RunJobs | project/code/program/execution/thread_scan.c:150-163 | when all threads are joined, the hosts hold the states of the sequential run and the multiset of its probes has been sent |
| SendPhase.RunThreads | project/code/program/execution/thread_scan.c:150-163 | the same for the thread table that was launched |
| SendPhase.SendRequests | project/code/program/execution/launch.c:5-24 | with or without threads, the same states are recorded and the same probes sent, each once; without threads in the order of the calls |
| SendPhase.PlanIsSound | project/code/program/execution/thread_scan.c:110-164 | the launched plan meets what the theorems about the threads ask for |
| SendPhase.ThreadsActSequentially | project/code/program/execution/launch.c:5-24 | for the launched plan, every completed interleaving gives the states and the probes of the sequential branch |
| SendPhase.SequentialStates | project/code/program/execution/launch.c:9-23 | the sequential branch sets exactly the asked cells, to state 3 for scans 2, 3, 4 and 6 and to state 2 for 1 and 5 |
| Receive.ParseIcmpResponse | project/code/program/receive/receive.c:5-20 | only six unreachable codes change anything: the cell becomes Closed for UDP and port-unreachable, else Filtered |
| Receive.ParseReply | project/code/program/receive/receive.c:64-86 | by the bytes of the frame: state 1 for scan 6 or the SYN bit, else on the RST bit 4 for scan 5 and 0 otherwise, else nothing; one cell only |
| Receive.ParseFrame | project/code/program/receive/receive.c:46-86 | the cell that the bytes of the frame tell of gets the state they tell, no other cell of the host changes |
| Receive.FindHost | project/code/program/receive/receive.c:38-45 | the host of the source address, null if and only if there is none |
| Receive.OneHostMatches | project/code/program/receive/receive.c:38-45 | a frame has a verdict for cells of one host only |
| Receive.FtReceivePckt | project/code/program/receive/receive.c:24-88 | over all hosts: a cell changes only if its host's address stands at bytes 28 to 31 and the bytes of the frame tell of it, and then to the state they tell |
| Receive.VerdictByBytes | project/code/program/receive/receive.c:24-88 | the verdict of any frame on any cell, read off the bytes |
| Receive.Dispatch | project/code/program/ft_nmap.c:22-23 | after the loop the states are the fold of the frames |
| Verdicts.LastVerdictWins | project/code/program/receive/receive.c:5-88 | after any trace a cell holds the verdict of the last frame that decides it, or its value before |
| Verdicts.OneCellPerFrame | project/code/program/receive/receive.c:24-88 | no frame decides two cells |
| Verdicts.IndependentFramesCommute | project/code/program/receive/receive.c:24-88 | frames that decide different cells may be swapped anywhere in a trace |
| Verdicts.VerdictShape | project/code/program/receive/receive.c:14-19 | which states a frame can report, and for which scans |
| Verdicts.TcpReplyTells | project/code/program/receive/receive.c:66-84 | a TCP reply to scans 1 to 5: SYN bit 1, else RST bit 4 for scan 5 and 0 otherwise, else nothing |
| Verdicts.UdpReplyTells | project/code/program/receive/receive.c:68-77 | a UDP reply to scan 6 means state 1 |
| Verdicts.IcmpErrorTells | project/code/program/receive/receive.c:5-20 | type 3 with code 1, 2, 3, 9, 10 or 13 means state 2, but 0 for scan 6 and code 3; anything else nothing |
| Verdicts.UnfilteredOnlyForAck | project/code/program/receive/receive.c:78-84 | Unfiltered appears only in the ACK row |
| Verdicts.UdpClosedOnlyByPortUnreachable | project/code/program/receive/receive.c:15-18 | a UDP cell becomes Closed if and only if the last frame that decides it is a port-unreachable error |
| Verdicts.NeverBackToOpenFiltered | project/code/program/receive/receive.c:5-88 | a cell that has left Open or Filtered never returns to it |
| Verdicts.AskedCellAtTheEnd | project/code/program/ft_nmap.c:18-23 | after sending and any trace an asked cell holds its last verdict, or state 3 for scans 2, 3, 4 and 6 and state 2 for 1 and 5 |
| Verdicts.AnswerFields | project/code/program/receive/receive.c:46-73 | a reply with swapped ports, or an ICMP error quoting the probe, decodes to the host, scan type and port of the probe |
| Verdicts.AnswerFindsItsCell | project/code/program/receive/receive.c:24-88 | so it is attributed to exactly the cell of the probe and decides no other |
| Verdicts.AnswerSettlesItsCell | project/code/program/receive/receive.c:24-88 | for every listed host, scan and port, the state that an answer to the probe gives its cell, by the bytes of the answer |
| LineReader.FtStrlenGnl | project/code/gnl/get_next_line_utils.c:82-92 | the length of the string from an offset on |
| LineReader.CheckN | project/code/gnl/get_next_line_utils.c:38-50 | the position of the first newline, -1 if and only if there is none |
| LineReader.FtStrjoinGnl | project/code/gnl/get_next_line_utils.c:53-79 | a fresh string that is the concatenation |
| LineReader.FtStrndupGnl | project/code/gnl/get_next_line_utils.c:98-114 | a fresh string that is the prefix up to and including an index |
| LineReader.CreateLine | project/code/gnl/get_next_line.c:62-76 | NULL if and only if the stock is empty, else its first line without the newline |
| LineReader.CleanStock | project/code/gnl/get_next_line.c:79-101 | NULL if and only if there is no newline, else what follows the first one |
| LineReader.Reader.CreateStock | project/code/gnl/get_next_line.c:32-59 | the stock ends with a whole line in it or with the file read out, and nothing unreturned is lost |
| LineReader.Reader.GetNextLine | project/code/gnl/get_next_line.c:16-29 | the next line of what has not been returned, whatever the reads deliver; the rest stays in order |
| LineReader.LineConserves | project/code/gnl/get_next_line.c:61-101 | line, newline and remainder are the text |
| LineReader.LineIsLocal | project/code/gnl/get_next_line.c:43-56 | a text that holds a whole line gives the same line whatever follows |
| LineReader.LinesRebuild | project/code/gnl/get_next_line.c:16-29 | the lines, each with a newline, are the text, a final newline adding no line; no line holds a newline |
| LineReader.MainGnl | project/code/gnl/get_next_line.c:109-158 | exactly the lines of the file; its fixed table is too small if and only if there are 1024 lines or more, and then holds the first 1024 |
| LineReader.NewlinesOverrunTable | project/code/gnl/get_next_line.c:129-137 | a file of 1024 newlines has 1024 lines |
| Program.SendAndReceive | project/code/program/ft_nmap.c:18-23 | the two phases, with or without threads: probes of the asked cells, then the trace folded over their defaults |
| Program.ScanHosts | project/code/program/ft_nmap.c:14-23 | the same from the texts of the addresses on, duplicates dropped |
| Program.FtNmap | project/code/program/ft_nmap.c:5-23 | a run from the command line: exactly the accepted command lines with at most 42 targets lead to a scan, of exactly the named hosts and the requested ports and scans, with or without threads |
| Program.TraceIsPointwise | project/code/program/receive/receive.c:24-88 | what a trace makes of a cell depends only on what that cell held |
| Program.ThreadsDoNotMatter | project/code/program/ft_nmap.c:18-23 | with threads, every interleaving and every trace of answers end in the state of the run without |

## Left out

- Sockets, pcap, the wall clock, `alarm` and `ft_usleep`: a send appends to a trace, a receive consumes a given frame; answers that arrive while probes are still sent are not modelled, since the program dispatches after sending.
- Messages and exit codes: an operation either goes on or exits. The root check, failed allocations, failed reads and failed thread creation are not modelled; `malloc(0)` is taken as successful.
- Name resolution and files: a `World` says which address a name has and what a file holds; getaddrinfo on a dotted text gives the address of that text. The canonical host names that are kept for printing, and getifaddrs, are not modelled.
- Help text, result tables, statistics and service names (project/code/program/print_stats): output over a small finite domain.
- `get_total_indiv_ports`: its result is not used by its only caller. The memory helpers, exit helpers and the unused list helpers of project/code/program/utils/linked_list.c would only add easy members.
- Decimal.FtAtoi: requires that the digit run fits an int, because the C function accumulates in an int and overflow is undefined.
- Ports.CheckPortsOption: requires that the numbers of its argument, and the number of ports of a range, fit an int, for the same reason; so do the members it is made of.
- Ports.GetTotalRangePorts: requires that the size of the range fits an int (0 to the largest int does not). The source calls the C library's atoi here and ft_atoi elsewhere; both read the same number from a run of digits, and one function stands for both.
- Options.FtParsing: requires that the numbers given to --ports and --speedup fit an int, and that a file given to --file is text that main_gnl has room for; no other argument is restricted. The string comparisons of the loop are made for all arguments first and then acted on, which the loop interleaves; comparisons have no effect of their own.
- Options.ParseWords: requires the same of its words.
- Options.TakeWord: requires the same of its word.
- Launch.LaunchThreadScan: requires that the slot of UDP, if it is asked, is at least 1 after the deal, since a smaller leftover makes the source declare an array without entries; a store behind the thread table, which C leaves undefined, is not made.
- SendPhase.SendRequests: requires the uncleared slot to hold 0 when threads are used and UDP is asked, because otherwise the table is not filled and a thread without an entry cannot be joined; Launch.LaunchThreadScan shows that the condition is exact.
- Program.SendAndReceive: requires the same of the slot.
- Program.ScanHosts: requires the same of the slot.
- Program.FtNmap: requires the same of the slot.
- Threads.StepThread: a worker finds its host by number, where the source keeps a pointer into the list.
- Receive.FtReceivePckt: requires frames long enough for the fields that are read and, for frames that decide, a scan index below 7, since the source would write outside the state matrix.
- Receive.ParseIcmpResponse: requires the same scan index.
- Receive.ParseReply: requires the same scan index and length.
- Receive.ParseFrame: requires the same scan index and length.
- Receive.Dispatch: requires the same of every frame.
- Packet.InitChecksum: a UDP checksum that computes to 0 is stored as 0, as in the code; RFC 768 would transmit all ones, and 0 means that no checksum was made.
- LineReader.Reader.GetNextLine: the file holds no NUL character and the buffer size, 10 in the source, is any number from 1 on; closed descriptors and read errors are not modelled.
