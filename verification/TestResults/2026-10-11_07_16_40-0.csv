TestResult.DisplayName,TestResult.Outcome,TestResult.Duration,TestResult.ResourceCount,RandomSeed
GtfsGraphs.GtfsGraph.LoadTlRoute (correctness),Failed,00:00:02.3082161,2191330,2
GtfsGraphs.GtfsGraph.LoadTlRoutes (correctness),Passed,00:00:01.1153814,1127881,2
GtfsGraphs.GtfsGraph.LoadTlRoute (well-formedness),Passed,00:00:00.7190353,233669,2
GtfsGraphs.GtfsGraph.LoadTlRoutes (well-formedness),Passed,00:00:00.1669623,136416,2
