TestResult.DisplayName,TestResult.Outcome,TestResult.Duration,TestResult.ResourceCount,RandomSeed
GtfsGraphs.GtfsGraph.LoadTlRoute (correctness),Passed,00:00:02.7706151,2102651,0
GtfsGraphs.GtfsGraph.LoadTlRoutes (correctness),Passed,00:00:01.5831654,1122327,0
GtfsGraphs.GtfsGraph.LoadTlRoute (well-formedness),Passed,00:00:00.7776669,234051,0
GtfsGraphs.GtfsGraph.LoadTlRoutes (well-formedness),Passed,00:00:00.2817638,136388,0
