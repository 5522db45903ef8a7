TestResult.DisplayName,TestResult.Outcome,TestResult.Duration,TestResult.ResourceCount,RandomSeed
ExecutionMonitor.GraphMonitor.PollRound (correctness),Failed,00:00:00.6953672,2086522,1
Coordinator.RunIslandOwner (correctness),Passed,00:00:00.4027114,593305,1
CwlTranslator.CreateWorkflow (correctness),Passed,00:00:00.3726606,893883,1
Coordinator.Launch (correctness),Passed,00:00:00.3304656,493786,1
Coordinator.Launch (well-formedness),Passed,00:00:00.2811287,359630,1
GraphAssembly.ParseAll (well-formedness),Passed,00:00:00.2791806,748383,1
ExecutionMonitor.MonitorGraph (correctness),Passed,00:00:00.2709091,687577,1
Common.SplitAt (correctness),Passed,00:00:00.2607211,800333,1
CwlTranslator.OutputFilesDomain (correctness),Passed,00:00:00.2501741,729674,1
Coordinator.HighestManagerStartsMaster (well-formedness),Passed,00:00:00.2493652,295336,1
Coordinator.HighestManagerStartsMaster (correctness),Passed,00:00:00.2415809,325811,1
Coordinator.RunHighestManager (correctness),Passed,00:00:00.2414926,469621,1
Coordinator.RunHighestManager (well-formedness),Passed,00:00:00.2379073,280903,1
CwlTranslator.CreateCommandLineTool (correctness),Passed,00:00:00.2375681,962509,1
LaunchArgs.ReadNodeManagerVector (correctness),Passed,00:00:00.2329241,551268,1
LaunchArgs.ReadIslandVector (correctness),Passed,00:00:00.2316475,493181,1
Coordinator.RunIslandOwner (well-formedness),Passed,00:00:00.2275327,290259,1
Coordinator.IslandOwnerStops (correctness),Passed,00:00:00.2267707,594769,1
Ifconfig.SecondField (correctness),Passed,00:00:00.2264065,556947,1
CwlTranslator.CreateStep (correctness),Passed,00:00:00.2116442,620251,1
Coordinator.IslandOwnerStops (well-formedness),Passed,00:00:00.2042075,278825,1
Coordinator.IslandOwnerRun (well-formedness),Passed,00:00:00.1955051,274839,1
GraphAssembly.GetPg (correctness),Passed,00:00:00.1893122,395678,1
Coordinator.AcceptedRunHasGraph (correctness),Passed,00:00:00.1800313,216452,1
Common.Split (well-formedness),Passed,00:00:00.1694723,87627,1
LaunchArgs.ReadNodeManagerMiddle (correctness),Passed,00:00:00.1687995,439320,1
Coordinator.HighestManagerRun (well-formedness),Passed,00:00:00.1651460,276128,1
GraphAssembly.Keywords (well-formedness),Passed,00:00:00.1608423,73890,1
ExecutionMonitor.FirstSightsAreNew (correctness),Passed,00:00:00.1529304,399323,1
Coordinator.Validate (well-formedness),Passed,00:00:00.1501641,72267,1
GraphAssembly.ParseModifier (well-formedness),Passed,00:00:00.1498222,242380,1
GraphAssembly.PositionalMembership (correctness),Passed,00:00:00.1463054,41277,1
GraphAssembly.ApplyModifiers (correctness),Passed,00:00:00.1437230,395554,1
ExecutionMonitor.AwaitRound (correctness),Passed,00:00:00.1423398,92172,1
GraphAssembly.KeywordsOfRest (correctness),Passed,00:00:00.1402278,154706,1
GraphAssembly.GetPg (well-formedness),Passed,00:00:00.1398824,247393,1
Common.Join (well-formedness),Passed,00:00:00.1387590,16100,1
LaunchArgs.IslandMembershipRoundTrip (well-formedness),Passed,00:00:00.1387436,101035,1
CwlTranslator.DescribesTool (well-formedness),Passed,00:00:00.1342806,147945,1
HostProbe.CheckHosts (correctness),Passed,00:00:00.1339562,114209,1
GraphAssembly.PgOf (well-formedness),Passed,00:00:00.1323607,337443,1
CwlTranslator.CreateWorkflow (well-formedness),Passed,00:00:00.1283417,231391,1
GraphAssembly.KeywordsDomain (correctness),Passed,00:00:00.1280769,196398,1
GraphAssembly.KeywordsFailure (correctness),Passed,00:00:00.1266244,366599,1
GraphAssembly.AsWrittenAgreesWhenGiven (correctness),Passed,00:00:00.1259758,191462,1
HostProbe.KeepOneMore (correctness),Passed,00:00:00.1255791,407242,1
Coordinator.DumpPath (well-formedness),Passed,00:00:00.1255150,29558,1
ExecutionMonitor.AwaitRound (well-formedness),Passed,00:00:00.1223845,48383,1
GraphAssembly.AsWrittenRejectsDefault (correctness),Passed,00:00:00.1223831,190307,1
CwlTranslator.ToolProblem (well-formedness),Passed,00:00:00.1120412,29237,1
ExecutionMonitor.StatusOfKnownSession (correctness),Passed,00:00:00.1105649,168617,1
HostProbe.HealthyIsSubsequence (correctness),Passed,00:00:00.1103473,269699,1
CwlTranslator.CollectOutputFiles (correctness),Passed,00:00:00.1093580,242124,1
CwlTranslator.StepMatches (well-formedness),Passed,00:00:00.1067070,220972,1
Ifconfig.PawseyReadsSecondLine (correctness),Passed,00:00:00.1064028,235409,1
GraphAssembly.PgOfAsWritten (well-formedness),Passed,00:00:00.1060055,174831,1
LaunchArgs.ReadMasterVector (correctness),Passed,00:00:00.1040796,318570,1
ExecutionMonitor.RecordedFirstAt (correctness),Passed,00:00:00.1024509,224986,1
LaunchArgs.ParseSwitch (correctness),Passed,00:00:00.0976536,59614,1
CwlTranslator.BashIndicesLaw (correctness),Passed,00:00:00.0939842,112239,1
GraphAssembly.ModifyAndMap (well-formedness),Passed,00:00:00.0931772,162171,1
CwlTranslator.FirstMissing (well-formedness),Passed,00:00:00.0920447,132282,1
HostProbe.ThreeHostScenario (correctness),Passed,00:00:00.0919256,338100,1
GraphAssembly.ParseAllFailsFrom (correctness),Passed,00:00:00.0900091,196673,1
HostProbe.KeepOneMore (well-formedness),Passed,00:00:00.0897869,35572,1
DfmsUtils.EscapeSingleOnly (correctness),Passed,00:00:00.0894802,33663,1
ExecutionMonitor.MonitorGraph (well-formedness),Passed,00:00:00.0847562,147535,1
Ifconfig.AddressRoundTrip (correctness),Passed,00:00:00.0842336,268814,1
LaunchArgs.BindAddress (well-formedness),Passed,00:00:00.0840012,22563,1
LaunchArgs.IslandMembershipRoundTrip (correctness),Passed,00:00:00.0829884,105362,1
GraphAssembly.ParseFormatted (correctness),Passed,00:00:00.0828109,163430,1
ExecutionMonitor.FirstSightOfSession (correctness),Passed,00:00:00.0823254,232908,1
ExecutionMonitor.GraphMonitor.Visit (correctness),Passed,00:00:00.0808502,226459,1
Ifconfig.SplitKeyAddress (correctness),Passed,00:00:00.0790211,42960,1
CwlTranslator.OutputFilesLastWriter (correctness),Passed,00:00:00.0777888,185856,1
ExecutionMonitor.RecordedAllKeys (correctness),Passed,00:00:00.0759285,139115,1
ExecutionMonitor.PolledOneMore (correctness),Passed,00:00:00.0741720,137969,1
Common.JoinSplit (correctness),Passed,00:00:00.0736781,198518,1
GraphAssembly.SourceGraph (well-formedness),Passed,00:00:00.0702174,98687,1
GraphAssembly.AsWrittenRejectsDefault (well-formedness),Passed,00:00:00.0699494,183041,1
Coordinator.MonitorUnderDirectory (correctness),Passed,00:00:00.0682220,182236,1
ExecutionMonitor.FirstFinishedRound (well-formedness),Passed,00:00:00.0651408,189680,1
GraphAssembly.KeywordsLastWins (correctness),Passed,00:00:00.0650968,118792,1
DfmsUtils.EscapeQuotesLength (correctness),Passed,00:00:00.0621778,293684,1
CwlTranslator.CreateStep (well-formedness),Passed,00:00:00.0596515,145453,1
Common.DirnameOfJoin (correctness),Passed,00:00:00.0579428,136678,1
DfmsUtils.ReplaceCharLength (correctness),Passed,00:00:00.0574144,415382,1
LaunchArgs.ReadNodeManagerTail (correctness),Passed,00:00:00.0569683,148259,1
GraphAssembly.KeywordsSnoc (correctness),Passed,00:00:00.0557504,78713,1
GraphAssembly.ParseFormatted (well-formedness),Passed,00:00:00.0496063,92583,1
LaunchArgs.IslandManagerArgs (well-formedness),Passed,00:00:00.0493933,120187,1
ExecutionMonitor.GraphMonitor.PollRound (well-formedness),Passed,00:00:00.0488284,96556,1
DfmsUtils.EscapeQuotesIsPerCharacter (correctness),Passed,00:00:00.0483217,107758,1
GraphAssembly.KeywordsOfPlain (well-formedness),Passed,00:00:00.0477024,41581,1
ExecutionMonitor.MonitorKeepsFirstView (correctness),Passed,00:00:00.0468070,66460,1
ExecutionMonitor.RecordedKeys (correctness),Passed,00:00:00.0464286,130459,1
LaunchArgs.MasterManagerArgs (well-formedness),Passed,00:00:00.0450048,119680,1
Ifconfig.IpViaIfconfig (well-formedness),Passed,00:00:00.0443708,85135,1
GraphAssembly.EmptyOptionNamesEmptyModifier (correctness),Passed,00:00:00.0442821,121538,1
LaunchArgs.NodeManagerArgs (well-formedness),Passed,00:00:00.0436035,124674,1
GraphAssembly.ParseOfParts (correctness),Passed,00:00:00.0426113,83268,1
GraphAssembly.NoModifiersKeepGraph (correctness),Passed,00:00:00.0418561,105477,1
GraphAssembly.KeywordsPlain (correctness),Passed,00:00:00.0413963,111113,1
HostProbe.HealthyMembership (correctness),Passed,00:00:00.0407773,98709,1
ExecutionMonitor.Recorded (well-formedness),Passed,00:00:00.0406642,25086,1
ExecutionMonitor.MonitorExecutionFinished (correctness),Passed,00:00:00.0406560,114176,1
GraphAssembly.NoModifiersKeepGraph (well-formedness),Passed,00:00:00.0395899,100021,1
CwlTranslator.BashIndices (well-formedness),Passed,00:00:00.0380549,78273,1
Coordinator.DumpDirectoryIsRankLogDir (correctness),Passed,00:00:00.0373099,76571,1
Ifconfig.AddressAtLine (well-formedness),Passed,00:00:00.0370537,72093,1
CwlTranslator.CreateCommandLineTool (well-formedness),Passed,00:00:00.0364990,95111,1
GraphAssembly.ApplyModifiers (well-formedness),Passed,00:00:00.0364414,93072,1
GraphAssembly.KeywordsFailure (well-formedness),Passed,00:00:00.0363194,53849,1
ExecutionMonitor.RecordedKeepsKnown (correctness),Passed,00:00:00.0359789,82011,1
ExecutionMonitor.GraphMonitor._ctor (correctness),Passed,00:00:00.0357992,80188,1
GraphAssembly.PositionalPlain (correctness),Passed,00:00:00.0354970,88610,1
DfmsUtils.CountAppend (correctness),Passed,00:00:00.0354178,40409,1
GraphAssembly.ApplyAllAppend (correctness),Passed,00:00:00.0352497,83851,1
ExecutionMonitor.FirstFinishedRoundIs (correctness),Passed,00:00:00.0341634,97164,1
HostProbe.Healthy (well-formedness),Passed,00:00:00.0339999,59555,1
Ifconfig.PawseyReadsSecondLine (well-formedness),Passed,00:00:00.0328431,54476,1
HostProbe.CheckHosts (well-formedness),Passed,00:00:00.0327404,36627,1
GraphAssembly.ParseAllFailsFrom (well-formedness),Passed,00:00:00.0323029,78098,1
CwlTranslator.FirstIndexOf (well-formedness),Passed,00:00:00.0313356,132046,1
DfmsUtils.ReplaceCharAppend (correctness),Passed,00:00:00.0311626,49194,1
Common.SplitJoin (correctness),Passed,00:00:00.0308895,77231,1
Ifconfig.AddressOfLine (well-formedness),Passed,00:00:00.0302390,52015,1
ExecutionMonitor.RecordedAllKeepsKnown (correctness),Passed,00:00:00.0299293,71345,1
Ifconfig.TokenLengthOf (correctness),Passed,00:00:00.0298242,47974,1
GraphAssembly.KeywordsOfRest (well-formedness),Passed,00:00:00.0290858,55620,1
Common.JoinPrepend (correctness),Passed,00:00:00.0290655,54727,1
GraphAssembly.ApplyAll (well-formedness),Passed,00:00:00.0287977,50004,1
ExecutionMonitor.AllStatusLines (well-formedness),Passed,00:00:00.0286289,53265,1
GraphAssembly.KeywordsLastWins (well-formedness),Passed,00:00:00.0286080,53575,1
Common.NatToStringValue (correctness),Passed,00:00:00.0283349,70116,1
Ifconfig.Fields (well-formedness),Passed,00:00:00.0282135,51956,1
Common.SplitNoSep (correctness),Passed,00:00:00.0280041,33733,1
DfmsUtils.ReplaceCharKeepsOthers (correctness),Passed,00:00:00.0278712,57757,1
HostProbe.CheckAndAdd (correctness),Passed,00:00:00.0276566,66668,1
ExecutionMonitor.FinishedSessionEndsWait (correctness),Passed,00:00:00.0275996,52450,1
DfmsUtils.CountAbsent (correctness),Passed,00:00:00.0275639,17975,1
Common.StripTrailingSlashes (well-formedness),Passed,00:00:00.0273476,55524,1
GraphAssembly.ParseOfParts (well-formedness),Passed,00:00:00.0261940,68071,1
GraphAssembly.KeywordsOfPlain (correctness),Passed,00:00:00.0259150,49830,1
CwlTranslator.OutputFiles (well-formedness),Passed,00:00:00.0259033,40445,1
HostProbe.AnswersWithinMeans (correctness),Passed,00:00:00.0258330,32237,1
GraphAssembly.ApplyAllAppend (well-formedness),Passed,00:00:00.0256287,62156,1
CwlTranslator.FirstMissingAt (well-formedness),Passed,00:00:00.0255400,27097,1
ExecutionMonitor.RecordedFirstView (correctness),Passed,00:00:00.0255175,47036,1
DfmsUtils.GetDfmsLogsDir (well-formedness),Passed,00:00:00.0250774,40988,1
ExecutionMonitor.GraphMonitor.Valid (well-formedness),Passed,00:00:00.0249216,44496,1
CwlTranslator.CollectOutputFiles (well-formedness),Passed,00:00:00.0249002,41631,1
GraphAssembly.ModifierSpecs (well-formedness),Passed,00:00:00.0248717,51708,1
ExecutionMonitor.Consistent (well-formedness),Passed,00:00:00.0240927,54992,1
CwlTranslator.FirstMissingAt (correctness),Passed,00:00:00.0237601,34854,1
CwlTranslator.StepNamesDistinct (correctness),Passed,00:00:00.0237170,28125,1
ExecutionMonitor.StatusLinesGrow (correctness),Passed,00:00:00.0236869,46461,1
LaunchArgs.ParseValue (correctness),Passed,00:00:00.0236467,64280,1
DfmsUtils.GetDfmsDir (well-formedness),Passed,00:00:00.0236149,44784,1
CwlTranslator.IsBaseCommand (well-formedness),Passed,00:00:00.0235183,10882,1
GraphAssembly.KeywordsDomain (well-formedness),Passed,00:00:00.0229333,44955,1
CwlTranslator.BashIndicesLaw (well-formedness),Passed,00:00:00.0228657,32841,1
ExecutionMonitor.StatusLines (well-formedness),Passed,00:00:00.0228268,43761,1
GraphAssembly.PositionalOfPlain (correctness),Passed,00:00:00.0228064,55532,1
ExecutionMonitor.StatusLinesGrow (well-formedness),Passed,00:00:00.0228007,39124,1
ExecutionMonitor.FirstFinishedRoundNone (correctness),Passed,00:00:00.0225412,44368,1
LaunchArgs.RankLogDir (well-formedness),Passed,00:00:00.0225388,25406,1
GraphAssembly.KeywordsPlain (well-formedness),Passed,00:00:00.0223969,59526,1
Ifconfig.AddressAtJoinedLine (correctness),Passed,00:00:00.0223155,53083,1
Ifconfig.PartInJoin (correctness),Passed,00:00:00.0223154,42973,1
CwlTranslator.OutputFilesLastWriter (well-formedness),Passed,00:00:00.0222337,45733,1
Ifconfig.FieldsSkipSpace (correctness),Passed,00:00:00.0220796,39981,1
GraphAssembly.PartsWithoutComma (correctness),Passed,00:00:00.0220215,62299,1
ExecutionMonitor.MonitorKeepsFirstView (well-formedness),Passed,00:00:00.0218955,38440,1
GraphAssembly.KeywordsSnoc (well-formedness),Passed,00:00:00.0212340,42649,1
DfmsUtils.EscapeQuotes (well-formedness),Passed,00:00:00.0211547,37301,1
Common.DigitsValue (well-formedness),Passed,00:00:00.0211057,20998,1
HostProbe.AsWrittenNeverGivesUp (correctness),Passed,00:00:00.0209117,38988,1
LaunchArgs.ParseOptions (well-formedness),Passed,00:00:00.0208356,46763,1
Ifconfig.FieldsToken (correctness),Passed,00:00:00.0208324,47059,1
ExecutionMonitor.PausesGrow (correctness),Passed,00:00:00.0206935,35419,1
Common.JoinCons (correctness),Passed,00:00:00.0205420,28054,1
DfmsUtils.EscapeDoubleOnly (correctness),Passed,00:00:00.0203945,33575,1
Ifconfig.SecondField (well-formedness),Passed,00:00:00.0202256,33031,1
CwlTranslator.OutputFilesDomain (well-formedness),Passed,00:00:00.0201489,40763,1
ExecutionMonitor.GraphMonitor.Visit (well-formedness),Passed,00:00:00.0200155,54062,1
Common.AfterLastSlash (well-formedness),Passed,00:00:00.0199645,43222,1
GraphAssembly.SplitKeyValue (correctness),Passed,00:00:00.0199432,43382,1
Ifconfig.TokenLength (well-formedness),Passed,00:00:00.0198959,38725,1
DfmsUtils.EscapeDoubleOnly (well-formedness),Passed,00:00:00.0197974,29144,1
DfmsUtils.PidAndLogsDirsDiffer (correctness),Passed,00:00:00.0196674,54501,1
Common.SplitJoin (well-formedness),Passed,00:00:00.0195075,19553,1
DfmsUtils.GetDfmsPidDir (well-formedness),Passed,00:00:00.0194404,40333,1
HostProbe.CheckAndAddAsWritten (well-formedness),Passed,00:00:00.0192919,36462,1
ExecutionMonitor.FinishedSessionEndsWait (well-formedness),Passed,00:00:00.0192167,38652,1
GraphAssembly.PositionalPlain (well-formedness),Passed,00:00:00.0190471,33861,1
Common.NatToString (well-formedness),Passed,00:00:00.0190145,40698,1
HostProbe.KeepTruthy (well-formedness),Passed,00:00:00.0189827,35299,1
ExecutionMonitor.PausesGrow (well-formedness),Passed,00:00:00.0188341,28714,1
Common.JoinPrepend (well-formedness),Passed,00:00:00.0187652,14381,1
CwlTranslator.Produces (well-formedness),Passed,00:00:00.0186898,15252,1
GraphAssembly.AppFor (well-formedness),Passed,00:00:00.0186265,117176,1
ExecutionMonitor.FirstFinishedRoundIs (well-formedness),Passed,00:00:00.0185999,40328,1
Common.DigitChar (well-formedness),Passed,00:00:00.0184654,56324,1
DfmsUtils.ReplaceCharAbsent (correctness),Passed,00:00:00.0183156,35090,1
ExecutionMonitor.AllFirstSights (well-formedness),Passed,00:00:00.0181252,38323,1
Ifconfig.AddressAtJoinedLine (well-formedness),Passed,00:00:00.0180105,38791,1
Coordinator.RoleOf (well-formedness),Passed,00:00:00.0179653,15584,1
ExecutionMonitor.FirstSightsAreNew (well-formedness),Passed,00:00:00.0178989,43413,1
Coordinator.MonitorUnderDirectory (well-formedness),Passed,00:00:00.0177153,19924,1
Common.DirnameOfJoin (well-formedness),Passed,00:00:00.0176633,23639,1
GraphAssembly.MappedNodesLaw (correctness),Passed,00:00:00.0176515,43607,1
Ifconfig.TokenLengthOf (well-formedness),Passed,00:00:00.0175103,17994,1
HostProbe.CheckAndAdd (well-formedness),Passed,00:00:00.0173739,33580,1
GraphAssembly.KeywordParts (well-formedness),Passed,00:00:00.0172644,33710,1
GraphAssembly.ModifierSpecsAsWritten (well-formedness),Passed,00:00:00.0172114,49765,1
ExecutionMonitor.RecordedAllKeys (well-formedness),Passed,00:00:00.0169405,27848,1
DfmsUtils.EscapeEach (well-formedness),Passed,00:00:00.0169236,18470,1
GraphAssembly.Positional (well-formedness),Passed,00:00:00.0168367,28538,1
ExecutionMonitor.Pauses (well-formedness),Passed,00:00:00.0166179,38873,1
Ifconfig.SiteLine (well-formedness),Passed,00:00:00.0166153,29306,1
LaunchArgs.RankLogDirsDistinct (correctness),Passed,00:00:00.0165871,28201,1
ExecutionMonitor.FirstFinishedRoundNone (well-formedness),Passed,00:00:00.0163798,36896,1
HostProbe.AnswersWithinMeans (well-formedness),Passed,00:00:00.0163713,19093,1
ExecutionMonitor.PolledOneMore (well-formedness),Passed,00:00:00.0160504,23518,1
LaunchArgs.VerbosityFlag (well-formedness),Passed,00:00:00.0160352,34873,1
Ifconfig.AddressRoundTrip (well-formedness),Passed,00:00:00.0159710,40485,1
Ifconfig.SecondPartChars (correctness),Passed,00:00:00.0158033,38306,1
ExecutionMonitor.RecordedFirstView (well-formedness),Passed,00:00:00.0157035,32116,1
GraphAssembly.MappedNodesLaw (well-formedness),Passed,00:00:00.0156789,32902,1
HostProbe.AnswersWithin (well-formedness),Passed,00:00:00.0156637,19412,1
Common.PathJoinNamesEntry (correctness),Passed,00:00:00.0156488,22890,1
DfmsUtils.EscapeSingleOnly (well-formedness),Passed,00:00:00.0147896,29565,1
Common.NatToStringValue (well-formedness),Passed,00:00:00.0141807,22074,1
Common.NamesEntry (well-formedness),Passed,00:00:00.0138659,10604,1
GraphAssembly.PartsWithoutComma (well-formedness),Passed,00:00:00.0138614,34657,1
GraphAssembly.PairsMap (well-formedness),Passed,00:00:00.0137116,18649,1
ExecutionMonitor.RecordedFirstAt (well-formedness),Passed,00:00:00.0137064,29442,1
ExecutionMonitor.FirstSights (well-formedness),Passed,00:00:00.0135543,33203,1
ExecutionMonitor.PauseAfter (well-formedness),Passed,00:00:00.0135298,6899,1
Common.NatToStringInjective (correctness),Passed,00:00:00.0135134,22928,1
GraphAssembly.MappedNodes (well-formedness),Passed,00:00:00.0131182,31358,1
GraphAssembly.GraphFile (well-formedness),Passed,00:00:00.0130519,26232,1
ExecutionMonitor.RecordedKeys (well-formedness),Passed,00:00:00.0128211,27952,1
HostProbe.HealthyMembership (well-formedness),Passed,00:00:00.0128160,30586,1
LaunchArgs.VerbosityOf (well-formedness),Passed,00:00:00.0127386,15420,1
ExecutionMonitor.RecordedAllKeepsKnown (well-formedness),Passed,00:00:00.0125862,27415,1
GraphAssembly.TwoNodesOneIslandRequest (correctness),Passed,00:00:00.0124086,19282,1
HostProbe.PoolSize (well-formedness),Passed,00:00:00.0120725,12509,1
GraphAssembly.KeyOf (well-formedness),Passed,00:00:00.0119228,19648,1
GraphAssembly.TwoNodesOneIslandRequest (well-formedness),Passed,00:00:00.0118645,23672,1
GraphAssembly.PartitionRequestFor (well-formedness),Passed,00:00:00.0115189,19846,1
ExecutionMonitor.RecordedAll (well-formedness),Passed,00:00:00.0115043,28488,1
GraphAssembly.PositionalOfPlain (well-formedness),Passed,00:00:00.0114892,16517,1
Ifconfig.FieldsToken (well-formedness),Passed,00:00:00.0114669,24196,1
DfmsUtils.ReplaceChar (well-formedness),Passed,00:00:00.0113955,15702,1
Ifconfig.SecondPartChars (well-formedness),Passed,00:00:00.0111015,21549,1
ExecutionMonitor.RecordedKeepsKnown (well-formedness),Passed,00:00:00.0108165,25604,1
DfmsUtils.Count (well-formedness),Passed,00:00:00.0106127,14839,1
Common.IntToString (well-formedness),Passed,00:00:00.0103659,16719,1
Ifconfig.PartInJoin (well-formedness),Passed,00:00:00.0101299,15687,1
Common.Dirname (well-formedness),Passed,00:00:00.0101248,18203,1
HostProbe.IsSubsequence (well-formedness),Passed,00:00:00.0094090,15221,1
LaunchArgs.ClampVerbosity (well-formedness),Passed,00:00:00.0093774,9307,1
Common.PathJoinNamesEntry (well-formedness),Passed,00:00:00.0090478,16259,1
ExecutionMonitor.AllFinished (well-formedness),Passed,00:00:00.0090245,21644,1
ExecutionMonitor.Seen (well-formedness),Passed,00:00:00.0089847,12914,1
Common.PathJoin (well-formedness),Passed,00:00:00.0089568,11096,1
ExecutionMonitor.Polled (well-formedness),Passed,00:00:00.0075974,14978,1
HostProbe.Truthy (well-formedness),Passed,00:00:00.0071197,9377,1
